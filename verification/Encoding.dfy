/** The byte strings that are hashed: the canonical form of a resource set and of a draft. A string here is a
    sequence of bytes; message bodies are given by their deterministic serialization. */
module Encoding {
  import opened Text
  import CrossRefs
  import Envoy
  import Sorting

  // Length prefixes

  function Digits(n: nat, k: nat): (s: string)
    ensures |s| == k
  {
    if k == 0 then "" else Digits(n / 256, k - 1) + [(n % 256) as char]
  }

  function Number(s: string): nat {
    if s == "" then 0 else Number(s[..|s| - 1]) * 256 + s[|s| - 1] as int
  }

  function Power(k: nat): nat {
    if k == 0 then 1 else 256 * Power(k - 1)
  }

  lemma {:induction false} NumberOfDigits(n: nat, k: nat)
    requires n < Power(k)
    ensures Number(Digits(n, k)) == n
  {
    if k > 0 {
      NumberOfDigits(n / 256, k - 1);
      var s := Digits(n, k);
      assert s[..|s| - 1] == Digits(n / 256, k - 1);
    }
  }

  /** The eight-byte big-endian form. */
  function Be8(n: nat): (s: string)
    ensures |s| == 8
  {
    Digits(n, 8)
  }

  const TWO64: nat := 0x1_0000_0000_0000_0000

  lemma Be8RoundTrip(n: nat)
    requires n < TWO64
    ensures Number(Be8(n)) == n
  {
    assert Power(8) == TWO64 by {
      assert Power(1) == 256 && Power(2) == 0x1_0000 && Power(3) == 0x100_0000 && Power(4) == 0x1_0000_0000;
      assert Power(5) == 0x100_0000_0000 && Power(6) == 0x1_0000_0000_0000 && Power(7) == 0x100_0000_0000_0000;
    }
    NumberOfDigits(n, 8);
  }

  // Resource records

  datatype Entry = Entry(kind: string, name: string, body: string)

  function EncodeOne(e: Entry): string {
    e.kind + "\0" + (e.name + "\0" + (Be8(|e.body|) + e.body))
  }

  function Encode(es: seq<Entry>): string {
    if es == [] then "" else EncodeOne(es[0]) + Encode(es[1..])
  }

  /** The text before the first NUL, and the text after it. */
  function Cut(s: string): (r: Option<(string, string)>)
    ensures r.Some? ==> |r.value.1| < |s|
  {
    if s == "" then None
    else if s[0] == '\0' then Some(("", s[1..]))
    else
      var r := Cut(s[1..]);
      if r.None? then None else Some(([s[0]] + r.value.0, r.value.1))
  }

  /** A length prefix and that many bytes, and the rest. */
  function Take(s: string): (r: Option<(string, string)>)
    ensures r.Some? ==> |r.value.1| < |s|
  {
    if |s| < 8 then None
    else
      var n := Number(s[..8]);
      if |s| - 8 < n then None else Some((s[8..8 + n], s[8 + n..]))
  }

  function DecodeOne(s: string): (r: Option<(Entry, string)>)
    ensures r.Some? ==> |r.value.1| < |s|
  {
    var k := Cut(s);
    if k.None? then None
    else
      var n := Cut(k.value.1);
      if n.None? then None
      else
        var b := Take(n.value.1);
        if b.None? then None else Some((Entry(k.value.0, n.value.0, b.value.0), b.value.1))
  }

  function Decode(s: string): Option<seq<Entry>>
    decreases |s|
  {
    if s == "" then Some([])
    else
      var e := DecodeOne(s);
      if e.None? then None
      else
        var rest := Decode(e.value.1);
        if rest.None? then None else Some([e.value.0] + rest.value)
  }

  lemma {:induction false} CutAtNul(a: string, rest: string)
    requires '\0' !in a
    ensures Cut(a + "\0" + rest) == Some((a, rest))
  {
    var s := a + "\0" + rest;
    if a == "" {
      assert s[1..] == rest;
    } else {
      assert s[1..] == a[1..] + "\0" + rest;
      CutAtNul(a[1..], rest);
      assert [a[0]] + a[1..] == a;
    }
  }

  lemma {:induction false} CutHasNoNul(s: string)
    ensures Cut(s).Some? ==> '\0' !in Cut(s).value.0
  {
    if s != "" && s[0] != '\0' {
      CutHasNoNul(s[1..]);
    }
  }

  lemma TakeBack(b: string, rest: string)
    requires |b| < TWO64
    ensures Take(Be8(|b|) + b + rest) == Some((b, rest))
  {
    var s := Be8(|b|) + b + rest;
    assert s[..8] == Be8(|b|);
    Be8RoundTrip(|b|);
    assert s[8..8 + |b|] == b && s[8 + |b|..] == rest;
  }

  predicate NulFree(e: Entry) {
    '\0' !in e.kind && '\0' !in e.name
  }

  lemma DecodesOne(e: Entry, rest: string)
    requires NulFree(e) && |e.body| < TWO64
    ensures DecodeOne(EncodeOne(e) + rest) == Some((e, rest))
  {
    hide Be8, Cut, Take;
    var tail := Be8(|e.body|) + e.body + rest;
    assert EncodeOne(e) + rest == e.kind + "\0" + (e.name + "\0" + tail);
    CutAtNul(e.kind, e.name + "\0" + tail);
    CutAtNul(e.name, tail);
    TakeBack(e.body, rest);
  }

  lemma DecodedIsNulFree(s: string)
    ensures DecodeOne(s).Some? ==> NulFree(DecodeOne(s).value.0)
  {
    hide Cut, Take;
    CutHasNoNul(s);
    if Cut(s).Some? {
      CutHasNoNul(Cut(s).value.1);
    }
  }

  lemma {:induction false} AllDecodedNulFree(s: string, i: nat)
    requires Decode(s).Some? && i < |Decode(s).value|
    ensures NulFree(Decode(s).value[i])
    decreases |s|
  {
    hide DecodeOne, NulFree;
    DecodedIsNulFree(s);
    if i > 0 {
      AllDecodedNulFree(DecodeOne(s).value.1, i - 1);
    }
  }

  lemma {:induction false} NulFreeDecodes(es: seq<Entry>)
    requires forall i :: 0 <= i < |es| ==> NulFree(es[i]) && |es[i].body| < TWO64
    ensures Decode(Encode(es)) == Some(es)
  {
    hide NulFree, DecodeOne;
    if es != [] {
      NulFreeDecodes(es[1..]);
      DecodesOne(es[0], Encode(es[1..]));
      assert EncodeOne(es[0]) != "";
      assert [es[0]] + es[1..] == es;
    }
  }

  /** The byte string decodes to exactly the records, exactly when no name holds a NUL. */
  lemma DecodesBack(es: seq<Entry>)
    requires forall i :: 0 <= i < |es| ==> |es[i].body| < TWO64
    ensures Decode(Encode(es)) == Some(es) <==> forall i :: 0 <= i < |es| ==> NulFree(es[i])
  {
    hide NulFree, Decode, Encode;
    if forall i :: 0 <= i < |es| ==> NulFree(es[i]) {
      NulFreeDecodes(es);
    } else if Decode(Encode(es)) == Some(es) {
      forall i | 0 <= i < |es| ensures NulFree(es[i]) {
        AllDecodedNulFree(Encode(es), i);
      }
    }
  }

  // The canonical form of a resource set

  datatype Resources = Resources(
    listeners: map<string, string>, clusters: map<string, string>, routes: map<string, string>,
    endpoints: map<string, string>, secrets: map<string, string>, bootstrap: Option<string>)

  const SECTIONS: nat := 6

  function Kind(i: nat): string {
    if i == 0 then "listener" else if i == 1 then "cluster" else if i == 2 then "route"
    else if i == 3 then "endpoints" else if i == 4 then "secret" else "bootstrap"
  }

  function Section(r: Resources, i: nat): map<string, string> {
    if i == 0 then r.listeners else if i == 1 then r.clusters else if i == 2 then r.routes
    else if i == 3 then r.endpoints else if i == 4 then r.secrets
    else if r.bootstrap.Some? then map["bootstrap" := r.bootstrap.value] else map[]
  }

  /** keys lists the names of m in order. */
  ghost predicate Lists(keys: seq<string>, m: map<string, string>) {
    Sorting.Ascending(keys) && Sorting.Distinct(keys) && forall n :: n in keys <==> n in m
  }

  function Records(kind: string, m: map<string, string>, keys: seq<string>): seq<Entry> {
    seq(|keys|, i requires 0 <= i < |keys| => Entry(kind, keys[i], if keys[i] in m then m[keys[i]] else ""))
  }

  /** The records of the first n sections, the names of section i in the order keys[i]. */
  function Flat(r: Resources, keys: seq<seq<string>>, n: nat): seq<Entry>
    requires n <= |keys|
  {
    if n == 0 then [] else Flat(r, keys, n - 1) + Records(Kind(n - 1), Section(r, n - 1), keys[n - 1])
  }

  ghost predicate Ordered(r: Resources, keys: seq<seq<string>>) {
    |keys| == SECTIONS && forall i :: 0 <= i < SECTIONS ==> Lists(keys[i], Section(r, i))
  }

  /** The hash input of a resource set. */
  ghost predicate HashInput(r: Resources, bytes: string) {
    exists keys :: Ordered(r, keys) && bytes == Encode(Flat(r, keys, SECTIONS))
  }

  lemma {:induction false} EncodeAppend(a: seq<Entry>, b: seq<Entry>)
    ensures Encode(a + b) == Encode(a) + Encode(b)
  {
    hide EncodeOne;
    if a == [] {
      assert a + b == b;
    } else {
      EncodeAppend(a[1..], b);
      assert (a + b)[1..] == a[1..] + b;
      assert (a + b)[0] == a[0];
    }
  }

  /** One resource set has one hash input, in whatever order its maps are read. */
  lemma HashInputIsUnique(r: Resources, a: string, b: string)
    requires HashInput(r, a) && HashInput(r, b)
    ensures a == b
  {
    hide Encode, Flat, Section;
    var k :| Ordered(r, k) && a == Encode(Flat(r, k, SECTIONS));
    var l :| Ordered(r, l) && b == Encode(Flat(r, l, SECTIONS));
    forall i | 0 <= i < SECTIONS ensures k[i] == l[i] {
      assert Lists(k[i], Section(r, i)) && Lists(l[i], Section(r, i));
      Sorting.SameSetSameList(k[i], l[i]);
    }
    assert k == l;
  }

  ghost predicate InSection(r: Resources, i: nat, e: Entry) {
    e.kind == Kind(i) && e.name in Section(r, i) && Section(r, i)[e.name] == e.body
  }

  lemma RecordsHold(kind: string, m: map<string, string>, keys: seq<string>, e: Entry)
    requires Lists(keys, m)
    ensures e in Records(kind, m, keys) <==> e.kind == kind && e.name in m && m[e.name] == e.body
  {
    var recs := Records(kind, m, keys);
    if e.kind == kind && e.name in m && m[e.name] == e.body {
      var k :| 0 <= k < |keys| && keys[k] == e.name;
      assert recs[k] == e;
    }
    if e in recs {
      var k :| 0 <= k < |recs| && recs[k] == e;
      assert keys[k] in keys;
    }
  }

  /** A record is listed exactly when the section of its kind holds it. */
  lemma {:induction false} FlatHolds(r: Resources, keys: seq<seq<string>>, n: nat, e: Entry)
    requires Ordered(r, keys) && n <= SECTIONS
    ensures e in Flat(r, keys, n) <==> exists i :: 0 <= i < n && InSection(r, i, e)
  {
    hide Records, Kind, Section, Lists;
    if n > 0 {
      FlatHolds(r, keys, n - 1, e);
      RecordsHold(Kind(n - 1), Section(r, n - 1), keys[n - 1], e);
      assert InSection(r, n - 1, e) <==> e in Records(Kind(n - 1), Section(r, n - 1), keys[n - 1]);
    }
  }

  lemma KindsDiffer(i: nat, j: nat)
    requires i < SECTIONS && j < SECTIONS && Kind(i) == Kind(j)
    ensures i == j
  {
    assert Kind(0)[0] == 'l' && Kind(1)[0] == 'c' && Kind(2)[0] == 'r';
    assert Kind(3)[0] == 'e' && Kind(4)[0] == 's' && Kind(5)[0] == 'b';
  }

  lemma SectionsAgree(r: Resources, k: seq<seq<string>>, q: Resources, l: seq<seq<string>>, i: nat, n: string)
    requires Ordered(r, k) && Ordered(q, l) && Flat(r, k, SECTIONS) == Flat(q, l, SECTIONS)
    requires i < SECTIONS && n in Section(r, i)
    ensures n in Section(q, i) && Section(q, i)[n] == Section(r, i)[n]
  {
    hide Flat, Section, Kind, Ordered;
    var e := Entry(Kind(i), n, Section(r, i)[n]);
    assert InSection(r, i, e);
    FlatHolds(r, k, SECTIONS, e);
    FlatHolds(q, l, SECTIONS, e);
    var j :| 0 <= j < SECTIONS && InSection(q, j, e);
    KindsDiffer(i, j);
  }

  lemma SameSection(r: Resources, k: seq<seq<string>>, q: Resources, l: seq<seq<string>>, i: nat)
    requires Ordered(r, k) && Ordered(q, l) && Flat(r, k, SECTIONS) == Flat(q, l, SECTIONS) && i < SECTIONS
    ensures Section(r, i) == Section(q, i)
  {
    hide Flat, Section, Kind, Ordered;
    forall n | n in Section(r, i) ensures n in Section(q, i) && Section(q, i)[n] == Section(r, i)[n] {
      SectionsAgree(r, k, q, l, i, n);
    }
    forall n | n in Section(q, i) ensures n in Section(r, i) {
      SectionsAgree(q, l, r, k, i, n);
    }
  }

  ghost predicate CleanNames(r: Resources) {
    forall i, n :: 0 <= i < SECTIONS && n in Section(r, i) ==> '\0' !in n && |Section(r, i)[n]| < TWO64
  }

  lemma KindIsClean(i: nat)
    ensures '\0' !in Kind(i)
  {
  }

  lemma FlatIsClean(r: Resources, keys: seq<seq<string>>)
    requires Ordered(r, keys) && CleanNames(r)
    ensures forall j :: 0 <= j < |Flat(r, keys, SECTIONS)| ==>
      NulFree(Flat(r, keys, SECTIONS)[j]) && |Flat(r, keys, SECTIONS)[j].body| < TWO64
  {
    hide Flat, Section, Kind, Lists;
    var es := Flat(r, keys, SECTIONS);
    forall j | 0 <= j < |es| ensures NulFree(es[j]) && |es[j].body| < TWO64 {
      FlatHolds(r, keys, SECTIONS, es[j]);
      var i :| 0 <= i < SECTIONS && InSection(r, i, es[j]);
      KindIsClean(i);
      assert es[j].name in Section(r, i) && es[j].body == Section(r, i)[es[j].name];
      assert '\0' !in es[j].name && '\0' !in es[j].kind;
    }
  }

  /** Different resource sets have different hash inputs, when no name holds a NUL. */
  lemma HashInputIsFaithful(r: Resources, q: Resources, bytes: string)
    requires HashInput(r, bytes) && HashInput(q, bytes) && CleanNames(r) && CleanNames(q)
    ensures r == q
  {
    hide Flat, Section, Kind, Lists, Encode, Decode, NulFree, CleanNames;
    var k :| Ordered(r, k) && bytes == Encode(Flat(r, k, SECTIONS));
    var l :| Ordered(q, l) && bytes == Encode(Flat(q, l, SECTIONS));
    FlatIsClean(r, k);
    FlatIsClean(q, l);
    DecodesBack(Flat(r, k, SECTIONS));
    DecodesBack(Flat(q, l, SECTIONS));
    forall i | 0 <= i < SECTIONS ensures Section(r, i) == Section(q, i) {
      SameSection(r, k, q, l, i);
    }
    SectionsAre(r);
    SectionsAre(q);
  }

  lemma SectionsAre(r: Resources)
    ensures Section(r, 0) == r.listeners && Section(r, 1) == r.clusters && Section(r, 2) == r.routes
    ensures Section(r, 3) == r.endpoints && Section(r, 4) == r.secrets
    ensures r.bootstrap == if "bootstrap" in Section(r, 5) then Some(Section(r, 5)["bootstrap"]) else None
  {
  }

  method AppendSection(buf: string, kind: string, m: map<string, string>) returns (out: string, ghost keys: seq<string>)
    ensures Lists(keys, m) && out == buf + Encode(Records(kind, m, keys))
  {
    hide Encode, EncodeOne;
    var names := CrossRefs.SortedKeys(m.Keys);
    keys, out := names, buf;
    ghost var recs := Records(kind, m, names);
    EncodeNothing();
    assert recs[..0] == [];
    for i := 0 to |names|
      invariant out == buf + Encode(recs[..i])
    {
      var e := Entry(kind, names[i], m[names[i]]);
      assert recs[..i + 1] == recs[..i] + [e];
      EncodeAppend(recs[..i], [e]);
      EncodeSingle(e);
      out := out + EncodeOne(e);
    }
    assert recs[..|names|] == recs;
  }

  method MarshalDeterministic(r: Resources) returns (bytes: string)
    ensures HashInput(r, bytes)
  {
    hide Encode, Lists, Section, Kind, Records;
    bytes := "";
    ghost var keys: seq<seq<string>> := [];
    EncodeNothing();
    for i := 0 to SECTIONS
      invariant |keys| == i && (forall j :: 0 <= j < i ==> Lists(keys[j], Section(r, j)))
      invariant bytes == Encode(Flat(r, keys, i))
    {
      ghost var names;
      bytes, names := AppendSection(bytes, Kind(i), Section(r, i));
      EncodeAppend(Flat(r, keys, i), Records(Kind(i), Section(r, i), names));
      FlatPrefix(r, keys, names, i);
      keys := keys + [names];
    }
  }

  lemma {:induction false} FlatPrefix(r: Resources, keys: seq<seq<string>>, more: seq<string>, n: nat)
    requires n <= |keys|
    ensures Flat(r, keys + [more], n) == Flat(r, keys, n)
  {
    if n > 0 {
      FlatPrefix(r, keys, more, n - 1);
    }
  }

  lemma EncodeNothing()
    ensures Encode([]) == ""
  {
  }

  lemma EncodeSingle(e: Entry)
    ensures Encode([e]) == EncodeOne(e)
  {
    assert [e][1..] == [];
    EncodeNothing();
  }

  // A collision

  /** A message with a short name: the name field comes first, then the other fields. */
  function Message(name: string, rest: string): string
    requires 0 < |name| < 128
  {
    [10 as char, |name| as char] + name + rest
  }

  /** The fields of a cluster with a short EDS service name. */
  function EdsService(service: string): string
    requires |service| < 120
  {
    [26 as char, (|service| + 2) as char, 18 as char, |service| as char] + service
  }

  /** A STATIC cluster that has, or has not, an EDS service name. */
  datatype SmallCluster = SmallCluster(name: string, service: Option<string>)
  {
    predicate Short() { 0 < |name| < 128 && (service.Some? ==> |service.value| < 120) }

    function Bytes(): string
      requires Short()
    {
      Message(name, if service.Some? then EdsService(service.value) else "")
    }
  }

  /** The resource set with this cluster, an empty load assignment for a cluster called "a", and the bootstrap. */
  function SetOf(c: SmallCluster, bootstrap: string): Resources
    requires c.Short()
  {
    Resources(map[], map[c.name := c.Bytes()], map[], map["a" := Message("a", "")], map[], Some(bootstrap))
  }

  /** The same set as the cross-reference check sees it. */
  function IrOf(c: SmallCluster): Envoy.IR {
    Envoy.IR(
      map[], map[c.name := Envoy.ClusterView(c.name, Envoy.Static, None, c.service.Some?)], map[],
      map["a" := Envoy.LoadAssignment("a", [])], map[])
  }

  lemma NoRecords(kind: string)
    ensures Records(kind, map[], []) == [] && Lists([], map[])
  {
  }

  lemma OneRecord(kind: string, name: string, body: string)
    ensures Records(kind, map[name := body], [name]) == [Entry(kind, name, body)]
    ensures Lists([name], map[name := body])
  {
  }

  lemma KindsAre()
    ensures Kind(0) == "listener" && Kind(1) == "cluster" && Kind(2) == "route"
    ensures Kind(3) == "endpoints" && Kind(4) == "secret" && Kind(5) == "bootstrap"
  {
  }

  lemma FlatSteps(r: Resources, keys: seq<seq<string>>)
    requires |keys| == SECTIONS
    ensures Flat(r, keys, SECTIONS)
            == Records(Kind(0), Section(r, 0), keys[0]) + Records(Kind(1), Section(r, 1), keys[1])
               + Records(Kind(2), Section(r, 2), keys[2]) + Records(Kind(3), Section(r, 3), keys[3])
               + Records(Kind(4), Section(r, 4), keys[4]) + Records(Kind(5), Section(r, 5), keys[5])
  {
    hide Records, Section, Kind;
    assert Flat(r, keys, 0) == [];
    assert Flat(r, keys, 1) == Records(Kind(0), Section(r, 0), keys[0]);
    assert Flat(r, keys, 2) == Flat(r, keys, 1) + Records(Kind(1), Section(r, 1), keys[1]);
    assert Flat(r, keys, 3) == Flat(r, keys, 2) + Records(Kind(2), Section(r, 2), keys[2]);
    assert Flat(r, keys, 4) == Flat(r, keys, 3) + Records(Kind(3), Section(r, 3), keys[3]);
    assert Flat(r, keys, 5) == Flat(r, keys, 4) + Records(Kind(4), Section(r, 4), keys[4]);
  }

  /** What the set's hash input is. */
  lemma SetInput(c: SmallCluster, bootstrap: string)
    requires c.Short()
    ensures HashInput(SetOf(c, bootstrap),
              EncodeOne(Entry("cluster", c.name, c.Bytes()))
              + Encode([Entry("endpoints", "a", Message("a", "")), Entry("bootstrap", "bootstrap", bootstrap)]))
  {
    hide Encode, EncodeOne, Flat, Section, Kind, Records, Lists;
    var r := SetOf(c, bootstrap);
    var keys: seq<seq<string>> := [[], [c.name], [], ["a"], [], ["bootstrap"]];
    SectionsOfSet(c, bootstrap);
    KindsAre();
    NoRecords("listener");
    NoRecords("route");
    NoRecords("secret");
    OneRecord("cluster", c.name, c.Bytes());
    OneRecord("endpoints", "a", Message("a", ""));
    OneRecord("bootstrap", "bootstrap", bootstrap);
    assert Ordered(r, keys);
    FlatSteps(r, keys);
    var x, y, z := Entry("cluster", c.name, c.Bytes()), Entry("endpoints", "a", Message("a", "")),
      Entry("bootstrap", "bootstrap", bootstrap);
    assert Flat(r, keys, SECTIONS) == [x] + [y, z];
    EncodeAppend([x], [y, z]);
    EncodeSingle(x);
  }

  lemma SectionsOfSet(c: SmallCluster, bootstrap: string)
    requires c.Short()
    ensures var r := SetOf(c, bootstrap);
            && Section(r, 0) == map[] && Section(r, 1) == map[c.name := c.Bytes()] && Section(r, 2) == map[]
            && Section(r, 3) == map["a" := Message("a", "")] && Section(r, 4) == map[]
            && Section(r, 5) == map["bootstrap" := bootstrap]
  {
  }

  /** Two resource sets that pass the cross-reference check and share one hash input, whatever the bootstrap. In one the
      cluster is called "a" and its EDS service name holds the record of the other cluster; in the other the cluster's
      name holds a NUL and the beginning of the first one's record. */
  lemma NulNamesCollide(bootstrap: string) returns (x: SmallCluster, y: SmallCluster)
    ensures x.Short() && y.Short() && x.name != y.name && '\0' !in x.name
    ensures CrossRefs.Closed(IrOf(x)) && CrossRefs.Closed(IrOf(y))
    ensures exists bytes :: HashInput(SetOf(x, bootstrap), bytes) && HashInput(SetOf(y, bootstrap), bytes)
  {
    hide Encode, EncodeOne, HashInput;
    x, y := Colliding();
    SetInput(x, bootstrap);
    SetInput(y, bootstrap);
  }

  const HEAD := [10 as char, 1 as char, 'a', 26 as char, 30 as char, 18 as char, 28 as char]

  lemma BytesOfA(service: string)
    requires |service| == 28
    ensures Message("a", EdsService(service)) == HEAD + service && |HEAD + service| == 35
  {
    assert Message("a", EdsService(service)) == [10 as char, 1 as char] + "a" + EdsService(service);
  }

  /** The end of one record and the beginning of the other are the same text, read with other boundaries. */
  lemma OtherBoundaries(m: string, n: string, other: string)
    ensures "a" + "\0" + (m + (HEAD + ("\0" + n + other))) == ("a\0" + m + HEAD) + "\0" + (n + other)
  {
  }

  lemma Colliding() returns (x: SmallCluster, y: SmallCluster)
    ensures x.Short() && y.Short() && x.name == "a" && y.name != "a" && y.service.None?
    ensures EncodeOne(Entry("cluster", x.name, x.Bytes())) == EncodeOne(Entry("cluster", y.name, y.Bytes()))
  {
    hide Be8, Message, EdsService;
    var b := "a\0" + Be8(35) + HEAD;
    assert |b| == 17;
    var other := Message(b, "");
    assert |other| == 19 by { MessageLength(b); }
    var service := "\0" + Be8(19) + other;
    assert |service| == 28;
    x, y := SmallCluster("a", Some(service)), SmallCluster(b, None);
    BytesOfA(service);
    OtherBoundaries(Be8(35), Be8(19), other);
  }

  lemma MessageLength(name: string)
    requires 0 < |name| < 128
    ensures |Message(name, "")| == |name| + 2
  {
  }

  // The draft hash

  function Part(s: string): string {
    Be8(|s|) + s
  }

  /** What is fed to the hash of a draft: path and content, each behind its length. */
  function HashParts(files: seq<(string, string)>): string {
    if files == [] then "" else Part(files[0].0) + (Part(files[0].1) + HashParts(files[1..]))
  }

  function DecodeParts(s: string): Option<seq<(string, string)>>
    decreases |s|
  {
    if s == "" then Some([])
    else
      var p := Take(s);
      if p.None? then None
      else
        var c := Take(p.value.1);
        if c.None? then None
        else
          var rest := DecodeParts(c.value.1);
          if rest.None? then None else Some([(p.value.0, c.value.0)] + rest.value)
  }

  /** The hash input of a draft determines the ordered list of paths and contents. */
  lemma {:induction false} PartsDecodeBack(files: seq<(string, string)>)
    requires forall i :: 0 <= i < |files| ==> |files[i].0| < TWO64 && |files[i].1| < TWO64
    ensures DecodeParts(HashParts(files)) == Some(files)
  {
    hide Take, Be8;
    if files != [] {
      var p, c, rest := files[0].0, files[0].1, HashParts(files[1..]);
      PartsDecodeBack(files[1..]);
      TakeBack(p, Part(c) + rest);
      TakeBack(c, rest);
      assert Part(c) + rest == Be8(|c|) + c + rest;
      assert HashParts(files) == Be8(|p|) + p + (Part(c) + rest);
      assert [(p, c)] + files[1..] == files;
    }
  }

  method HashDraft(files: seq<(string, string)>) returns (input: string)
    ensures input == HashParts(files)
  {
    hide HashParts, Part;
    input := "";
    PartsNothing();
    assert files[..0] == [];
    for i := 0 to |files|
      invariant input == HashParts(files[..i])
    {
      assert files[..i + 1] == files[..i] + [files[i]];
      PartsAppend(files[..i], files[i]);
      input := input + Part(files[i].0);
      input := input + Part(files[i].1);
    }
    assert files[..|files|] == files;
  }

  lemma PartsNothing()
    ensures HashParts([]) == ""
  {
  }

  lemma {:induction false} PartsAppend(files: seq<(string, string)>, f: (string, string))
    ensures HashParts(files + [f]) == HashParts(files) + Part(f.0) + Part(f.1)
  {
    hide Part;
    if files == [] {
      assert [f][1..] == [] && files + [f] == [f];
      PartsNothing();
    } else {
      var g := files[0];
      PartsAppend(files[1..], f);
      assert (files + [f])[1..] == files[1..] + [f] && (files + [f])[0] == g;
      assert HashParts(files + [f]) == Part(g.0) + (Part(g.1) + HashParts(files[1..] + [f]));
    }
  }
}
