/** Confirming a published version from Envoy's configuration dump. */
module Confirmation {
  import opened Text
  import Sorting
  import CrossRefs

  /** A decoded JSON value. The fields of an object come in some order, each key once. */
  datatype Json = Object(fields: seq<Field>) | Array(items: seq<Json>) | Str(text: string) | Other

  datatype Field = Field(key: string, value: Json)

  datatype ResourceVersion = ResourceVersion(typeName: string, version: string)

  // What the dump says

  function TypeField(fields: seq<Field>): Option<string> {
    if fields == [] then None
    else if fields[0].key == "@type" && fields[0].value.Str? then Some(fields[0].value.text)
    else TypeField(fields[1..])
  }

  function TypeName(fields: seq<Field>, context: string): string {
    var t := TypeField(fields);
    if t.Some? then t.value else context
  }

  /** The version infos of the first n fields of an object, or the first n items of a list. */
  function InFields(fields: seq<Field>, n: nat, context: string): set<ResourceVersion>
    requires n <= |fields|
    decreases fields, n
  {
    if n == 0 then {}
    else
      var f := fields[n - 1];
      InFields(fields, n - 1, context)
      + (if f.key == "version_info" && f.value.Str? then {ResourceVersion(context, f.value.text)} else {})
      + Infos(f.value, context + "/" + f.key)
  }

  function InItems(items: seq<Json>, n: nat, context: string): set<ResourceVersion>
    requires n <= |items|
    decreases items, n
  {
    if n == 0 then {} else InItems(items, n - 1, context) + Infos(items[n - 1], context)
  }

  /** Every version_info in a value, with the type that governs it. */
  function Infos(v: Json, context: string): set<ResourceVersion>
    decreases v
  {
    match v
    case Object(fields) => InFields(fields, |fields|, TypeName(fields, context))
    case Array(items) => InItems(items, |items|, context)
    case _ => {}
  }

  /** Endpoint resources are versioned on their own. */
  predicate IsEndpoint(typeName: string) {
    Contains(ToLower(typeName), "endpoint") || Contains(ToLower(typeName), "eds")
  }

  /** The non-empty versions of a dump outside endpoint resources. */
  function Versions(infos: set<ResourceVersion>): set<string> {
    set r | r in infos && !IsEndpoint(r.typeName) && r.version != "" :: r.version
  }

  /** The word stands at position i of the type, in any case of letters. */
  predicate StandsAt(typeName: string, word: string, i: nat) {
    i <= |typeName| && word <= ToLower(typeName[i..])
  }

  ghost predicate Mentions(typeName: string, word: string) {
    exists i: nat :: StandsAt(typeName, word, i)
  }

  lemma {:induction false} MentionsIff(typeName: string, word: string)
    ensures Contains(ToLower(typeName), word) <==> Mentions(typeName, word)
  {
    assert typeName[0..] == typeName;
    if word <= ToLower(typeName) {
      assert StandsAt(typeName, word, 0);
    } else if typeName == "" {
      assert forall i: nat :: !StandsAt(typeName, word, i);
    } else {
      var rest := typeName[1..];
      assert ToLower(typeName)[1..] == ToLower(rest);
      MentionsIff(rest, word);
      if i: nat :| StandsAt(rest, word, i) {
        assert rest[i..] == typeName[i + 1..];
        assert StandsAt(typeName, word, i + 1);
      }
      if i: nat :| StandsAt(typeName, word, i) {
        assert i > 0 && rest[i - 1..] == typeName[i..];
        assert StandsAt(rest, word, i - 1);
      }
    }
  }

  /** A version counts exactly when it is not empty and the type above it mentions neither endpoints nor EDS. */
  lemma VersionsAre(infos: set<ResourceVersion>, v: string)
    ensures v in Versions(infos)
            <==> v != "" && exists r :: && r in infos && r.version == v
                                        && !Mentions(r.typeName, "endpoint") && !Mentions(r.typeName, "eds")
  {
    hide Mentions, Contains;
    forall r: ResourceVersion
      ensures IsEndpoint(r.typeName) <==> Mentions(r.typeName, "endpoint") || Mentions(r.typeName, "eds")
    {
      MentionsIff(r.typeName, "endpoint");
      MentionsIff(r.typeName, "eds");
    }
  }

  /** The version_info that a path of positions leads to, with the type of the nearest typed object above it. */
  function Follow(v: Json, context: string, path: seq<nat>): Option<ResourceVersion>
    decreases |path|
  {
    if path == [] then None
    else match v
      case Object(fields) =>
        if path[0] >= |fields| then None
        else
          var f, t := fields[path[0]], TypeName(fields, context);
          if |path| == 1 && f.key == "version_info" && f.value.Str? then Some(ResourceVersion(t, f.value.text))
          else Follow(f.value, t + "/" + f.key, path[1..])
      case Array(items) => if path[0] >= |items| then None else Follow(items[path[0]], context, path[1..])
      case _ => None
  }

  lemma {:induction false} FieldListed(fields: seq<Field>, n: nat, context: string, i: nat)
    requires i < n <= |fields|
    ensures Infos(fields[i].value, context + "/" + fields[i].key) <= InFields(fields, n, context)
    ensures fields[i].key == "version_info" && fields[i].value.Str? ==>
      ResourceVersion(context, fields[i].value.text) in InFields(fields, n, context)
  {
    if i < n - 1 {
      FieldListed(fields, n - 1, context, i);
    }
  }

  lemma {:induction false} ItemListed(items: seq<Json>, n: nat, context: string, i: nat)
    requires i < n <= |items|
    ensures Infos(items[i], context) <= InItems(items, n, context)
  {
    if i < n - 1 {
      ItemListed(items, n - 1, context, i);
    }
  }

  /** Whatever a path leads to is among the version infos. */
  lemma {:induction false} ReachedIsListed(v: Json, context: string, path: seq<nat>)
    requires Follow(v, context, path).Some?
    ensures Follow(v, context, path).value in Infos(v, context)
    decreases |path|
  {
    match v {
      case Object(fields) =>
        var f, t := fields[path[0]], TypeName(fields, context);
        FieldListed(fields, |fields|, t, path[0]);
        if !(|path| == 1 && f.key == "version_info" && f.value.Str?) {
          ReachedIsListed(f.value, t + "/" + f.key, path[1..]);
        }
      case Array(items) =>
        ItemListed(items, |items|, context, path[0]);
        ReachedIsListed(items[path[0]], context, path[1..]);
    }
  }

  /** Every version info lies at the end of some path. */
  lemma {:induction false} ListedIsReached(v: Json, context: string, r: ResourceVersion) returns (path: seq<nat>)
    requires r in Infos(v, context)
    ensures Follow(v, context, path) == Some(r)
    decreases v
  {
    match v {
      case Object(fields) =>
        var t := TypeName(fields, context);
        var n := |fields|;
        while r in InFields(fields, n - 1, t)
          invariant 0 < n <= |fields| && r in InFields(fields, n, t)
          decreases n
        {
          n := n - 1;
        }
        var f := fields[n - 1];
        if f.key == "version_info" && f.value.Str? && r == ResourceVersion(t, f.value.text) {
          path := [n - 1];
        } else {
          var rest := ListedIsReached(f.value, t + "/" + f.key, r);
          path := [n - 1] + rest;
          assert path[1..] == rest;
        }
      case Array(items) =>
        var n := |items|;
        while r in InItems(items, n - 1, context)
          invariant 0 < n <= |items| && r in InItems(items, n, context)
          decreases n
        {
          n := n - 1;
        }
        var rest := ListedIsReached(items[n - 1], context, r);
        path := [n - 1] + rest;
        assert path[1..] == rest;
    }
  }

  // The code

  function Set<T>(s: seq<T>): set<T> {
    set x | x in s
  }

  lemma SetAppend<T>(s: seq<T>, x: T)
    ensures Set(s + [x]) == Set(s) + {x}
  {
  }

  function Kept(s: seq<ResourceVersion>): set<ResourceVersion> {
    set r | r in s && !IsEndpoint(r.typeName)
  }

  lemma KeptAppend(s: seq<ResourceVersion>, r: ResourceVersion)
    ensures Kept(s + [r]) == Kept(s) + if IsEndpoint(r.typeName) then {} else {r}
  {
    hide IsEndpoint;
    forall x ensures x in Kept(s + [r]) <==> x in Kept(s) || (x == r && !IsEndpoint(r.typeName)) {
      assert x in s + [r] <==> x in s || x == r;
    }
  }

  method FindType(fields: seq<Field>, context: string) returns (t: string)
    ensures t == TypeName(fields, context)
  {
    for i := 0 to |fields|
      invariant TypeField(fields) == TypeField(fields[i..])
    {
      if fields[i].key == "@type" && fields[i].value.Str? {
        return fields[i].value.text;
      }
    }
    assert fields[|fields|..] == [];
    t := context;
  }

  method Walk(v: Json, context: string, found: seq<ResourceVersion>) returns (out: seq<ResourceVersion>)
    ensures found <= out
    ensures Set(out) == Set(found) + Infos(v, context)
    decreases v
  {
    out := found;
    match v {
      case Object(fields) =>
        var t := FindType(fields, context);
        for i := 0 to |fields|
          invariant found <= out
          invariant Set(out) == Set(found) + InFields(fields, i, t)
        {
          if fields[i].key == "version_info" && fields[i].value.Str? {
            SetAppend(out, ResourceVersion(t, fields[i].value.text));
            out := out + [ResourceVersion(t, fields[i].value.text)];
          }
          out := Walk(fields[i].value, t + "/" + fields[i].key, out);
        }
      case Array(items) =>
        for i := 0 to |items|
          invariant found <= out
          invariant Set(out) == Set(found) + InItems(items, i, context)
        {
          out := Walk(items[i], context, out);
        }
      case _ =>
    }
  }

  /** Drops the endpoint resources in place. */
  method Filter(a: array<ResourceVersion>) returns (n: nat)
    modifies a
    ensures n <= a.Length
    ensures Set(a[..n]) == Kept(old(a[..]))
  {
    hide IsEndpoint, Set, Kept;
    n := 0;
    NoneKept();
    assert a[..0] == [] && old(a[..0]) == [];
    for i := 0 to a.Length
      invariant n <= i
      invariant Set(a[..n]) == Kept(old(a[..i]))
      invariant forall j :: i <= j < a.Length ==> a[j] == old(a[j])
    {
      assert old(a[..i + 1]) == old(a[..i]) + [a[i]];
      KeptAppend(old(a[..i]), a[i]);
      SetAppend(a[..n], a[i]);
      if !IsEndpoint(a[i].typeName) {
        ghost var before := a[..n];
        a[n] := a[i];
        assert a[..n + 1] == before + [a[n]];
        n := n + 1;
      }
    }
    assert old(a[..a.Length]) == old(a[..]);
  }

  lemma NoneKept()
    ensures Kept([]) == Set([]) == {}
  {
  }

  /** names are the versions in order. */
  ghost predicate InOrder(names: seq<string>, versions: set<string>) {
    Sorting.Ascending(names) && Sorting.Distinct(names) && Set(names) == versions
  }

  /** The observed string of a set of versions: none, one, or a list with commas. */
  ghost predicate Observes(versions: set<string>, observed: string) {
    exists names :: InOrder(names, versions) && observed == Join(names, ",")
  }

  lemma ObservedOnce(versions: set<string>, a: string, b: string)
    requires Observes(versions, a) && Observes(versions, b)
    ensures a == b
  {
    var names :| InOrder(names, versions) && a == Join(names, ",");
    var others :| InOrder(others, versions) && b == Join(others, ",");
    forall x ensures x in names <==> x in others {
      assert x in names <==> x in Set(names);
      assert x in others <==> x in Set(others);
    }
    Sorting.SameSetSameList(names, others);
  }

  /** Position i of e is a comma between two non-empty strings in ascending order. */
  predicate Separates(e: string, i: nat) {
    0 < i < |e| - 1 && e[i] == ',' && Le(e[..i], e[i + 1..]) && e[..i] != e[i + 1..]
  }

  /** The string can be read as a list of versions. */
  ghost predicate Ambiguous(e: string) {
    exists i: nat :: Separates(e, i)
  }

  lemma {:induction false} PrefixLe(a: string, b: string)
    requires a <= b
    ensures Le(a, b)
  {
    if a != "" {
      PrefixLe(a[1..], b[1..]);
    }
  }

  lemma JoinOfMany(names: seq<string>)
    requires |names| >= 2
    ensures Join(names, ",") == names[0] + "," + Join(names[1..], ",") && names[1] <= Join(names[1..], ",")
  {
  }

  lemma ListSeparates(names: seq<string>)
    requires |names| >= 2 && Sorting.Ascending(names) && Sorting.Distinct(names) && "" !in names
    ensures Separates(Join(names, ","), |names[0]|)
  {
    hide Le, Join;
    var e, first, rest := Join(names, ","), names[0], Join(names[1..], ",");
    JoinOfMany(names);
    assert e[..|first|] == first && e[|first| + 1..] == rest;
    assert names[0] in names && names[1] in names;
    PrefixLe(names[1], rest);
    LeTransitive(first, names[1], rest);
    if first == rest {
      LeAntisymmetric(first, names[1]);
    }
  }

  /** The observed string equals an unambiguous expected version exactly when that is the one version. */
  lemma ObservedIsExact(versions: set<string>, observed: string, expected: string)
    requires Observes(versions, observed) && "" !in versions && expected != "" && !Ambiguous(expected)
    ensures observed == expected <==> versions == {expected}
  {
    hide Separates;
    var names :| InOrder(names, versions) && observed == Join(names, ",");
    assert forall x :: x in names <==> x in Set(names);
    if |names| >= 2 {
      ListSeparates(names);
      assert names[0] in versions && names[1] in versions && names[0] != names[1];
    } else if |names| == 1 {
      assert names == [names[0]];
      assert versions == {names[0]};
    }
  }

  /** Two versions that add up to an ambiguous one. */
  lemma AmbiguousIsConfused(e: string) returns (versions: set<string>)
    requires Ambiguous(e)
    ensures "" !in versions && Observes(versions, e) && versions != {e}
  {
    var i: nat :| Separates(e, i);
    var names := [e[..i], e[i + 1..]];
    versions := {e[..i], e[i + 1..]};
    assert names[1..] == [e[i + 1..]];
    assert Join(names, ",") == e[..i] + "," + e[i + 1..] == e;
    assert names[0] in names && names[1] in names;
    assert InOrder(names, versions);
    assert |e[..i]| < |e|;
    assert e[..i] in versions;
  }

  /** Comparing the observed string with e decides whether e is the one version, exactly when e cannot be read as a
      list of versions. The digests that are published contain no comma. */
  lemma ExactIff(e: string)
    requires e != ""
    ensures !Ambiguous(e) <==>
      forall versions, observed :: Observes(versions, observed) && "" !in versions ==>
        (observed == e <==> versions == {e})
  {
    if Ambiguous(e) {
      var versions := AmbiguousIsConfused(e);
    } else {
      forall versions, observed | Observes(versions, observed) && "" !in versions
        ensures observed == e <==> versions == {e}
      {
        ObservedIsExact(versions, observed, e);
      }
    }
  }

  /** None stands for a body that is not a JSON object. */
  method ConfigDumpVersions(dump: Option<Json>) returns (observed: string)
    ensures Observes(if dump.Some? then Versions(Infos(dump.value, "")) else {}, observed)
  {
    hide IsEndpoint, Infos, Observes;
    if dump.None? {
      NothingObserved();
      return "";
    }
    var found := Walk(dump.value, "", []);
    var a := new ResourceVersion[|found|](i requires 0 <= i < |found| => found[i]);
    assert a[..] == found;
    var n := Filter(a);
    var versions := {};
    for i := 0 to n
      invariant versions == set r | r in a[..i] && r.version != "" :: r.version
    {
      assert a[..i + 1] == a[..i] + [a[i]];
      if a[i].version != "" {
        versions := versions + {a[i].version};
      }
    }
    VersionsOf(a[..n], found, versions, Infos(dump.value, ""));
    var names := CrossRefs.SortedKeys(versions);
    observed := Join(names, ",");
    ReadsAs(names, versions);
  }

  lemma VersionsOf(kept: seq<ResourceVersion>, found: seq<ResourceVersion>, versions: set<string>,
      infos: set<ResourceVersion>)
    requires Set(kept) == Kept(found) && Set(found) == infos
    requires versions == set r | r in kept && r.version != "" :: r.version
    ensures versions == Versions(infos)
  {
    hide IsEndpoint;
    forall r ensures r in kept <==> r in infos && !IsEndpoint(r.typeName) {
      assert r in kept <==> r in Set(kept);
      assert r in Kept(found) <==> r in found && !IsEndpoint(r.typeName);
      assert r in found <==> r in Set(found);
    }
  }

  lemma NothingObserved()
    ensures Observes({}, "")
  {
    ReadsAs([], {});
  }

  lemma ReadsAs(names: seq<string>, versions: set<string>)
    requires Sorting.Ascending(names) && Sorting.Distinct(names) && forall n :: n in names <==> n in versions
    ensures Observes(versions, Join(names, ","))
  {
    assert Set(names) == versions;
    assert InOrder(names, versions);
  }

  // Registrations and their answers

  lemma ObservedDecides(seen: set<string>, observed: string, expected: string)
    requires Observes(seen, observed) && "" !in seen && expected != ""
    ensures observed == expected <==> Observes(seen, expected)
    ensures !Ambiguous(expected) ==> (Observes(seen, expected) <==> seen == {expected})
  {
    hide Observes, Ambiguous;
    if Observes(seen, expected) {
      ObservedOnce(seen, observed, expected);
    }
    if !Ambiguous(expected) {
      ObservedIsExact(seen, observed, expected);
    }
  }

  datatype ConfirmEvent = ConfirmEvent(expected: string, observed: string, confirmed: bool, elapsed: int)

  class Service {
    var expected: string
    var expectAt: int
    var timeout: int
    /** The version last registered, and the terminal events it was answered with. */
    ghost var registered: string
    ghost var answers: seq<ConfirmEvent>

    constructor (timeout: int)
      ensures Valid() && registered == "" && answers == []
    {
      expected, expectAt, this.timeout, registered, answers := "", 0, timeout, "", [];
    }

    /** A registration has at most one answer, and is open exactly while it has none. */
    ghost predicate Valid()
      reads this
    {
      && |answers| <= 1 && (expected != "" ==> expected == registered && answers == [])
      && (answers != [] ==> answers[0].expected == registered)
    }

    method ExpectVersion(version: string, now: int, timeout: int)
      requires Valid()
      modifies this
      ensures Valid() && registered == version && expected == version && answers == [] && expectAt == now
      ensures this.timeout == if timeout > 0 then timeout else old(this.timeout)
    {
      expected, expectAt, registered, answers := version, now, version, [];
      if timeout > 0 {
        this.timeout := timeout;
      }
    }

    /** One poll. An open registration is confirmed exactly when the dump's versions read as the expected one, which
        for an unambiguous one means that they are the expected one alone, and times out exactly when they do not and
        the deadline has passed; both close it. */
    method Refresh(dump: Option<Json>, now: int) returns (event: Option<ConfirmEvent>)
      requires Valid()
      modifies this
      ensures Valid() && registered == old(registered) && expectAt == old(expectAt) && timeout == old(timeout)
      ensures event.Some? ==>
        && event.value.elapsed == now - old(expectAt)
        && Observes(if dump.Some? then Versions(Infos(dump.value, "")) else {}, event.value.observed)
      ensures event.Some? ==>
        old(expected) != "" && expected == "" && answers == [event.value] && event.value.expected == registered
      ensures event.None? ==> expected == old(expected) && answers == old(answers)
      ensures old(expected) != "" ==>
        var seen := if dump.Some? then Versions(Infos(dump.value, "")) else {};
        && (event.Some? && event.value.confirmed <==> Observes(seen, old(expected)))
        && (event.Some? && !event.value.confirmed
            <==> !Observes(seen, old(expected)) && now - old(expectAt) >= old(timeout))
        && (event.Some? && event.value.confirmed ==> event.value.observed == old(expected))
        && (!Ambiguous(old(expected)) ==> (Observes(seen, old(expected)) <==> seen == {old(expected)}))
    {
      event := None;
      var observed := ConfigDumpVersions(dump);
      if expected != "" {
        ghost var seen := if dump.Some? then Versions(Infos(dump.value, "")) else {};
        ObservedDecides(seen, observed, expected);
        var confirmed := observed == expected;
        if confirmed || now - expectAt >= timeout {
          event := Some(ConfirmEvent(expected, observed, confirmed, now - expectAt));
          expected, answers := "", [event.value];
        }
      }
    }
  }
}
