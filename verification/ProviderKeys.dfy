/** What the key of an external authorization provider says about the provider. */
module ProviderKeys {
  import opened Text
  import opened Config
  import opened Policies

  /** Parsing a URL leaves no '|' in its scheme and host. */
  predicate UrlOk(service: ExtAuthService) {
    service.Http? ==> '|' !in service.scheme && '|' !in service.host
  }

  /** What validation demands of a service: an HTTP or HTTPS URL, a path prefix that is empty or starts with a slash,
      and TLS settings only with HTTPS, which needs a CA file unless verification is off. */
  predicate Validated(service: ExtAuthService) {
    && UrlOk(service)
    && (service.Http? ==>
          && (service.scheme == "http" || service.scheme == "https")
          && (service.pathPrefix == "" || service.pathPrefix[0] == '/')
          && (service.scheme == "https" ==> service.caFile != "" || service.insecure)
          && (service.scheme == "http" ==> service.caFile == "" && !service.insecure))
  }

  const CA_MARK := "|ca="

  /** A path prefix that cannot be mistaken for the end of one. */
  predicate Clear(service: ExtAuthService) {
    service.Http? ==> !Contains(service.pathPrefix, CA_MARK)
  }

  /** The same kind of service at the same place, under the same failure mode and TLS verification. */
  predicate SamePlace(p: ExtAuthPolicy, q: ExtAuthPolicy) {
    && p.failOpen == q.failOpen
    && match (p.service, q.service)
       case (Grpc(h, m), Grpc(i, n)) => ToLower(h) == ToLower(i) && m == n
       case (Http(s, h, m, _, _, x), Http(t, i, n, _, _, y)) =>
         ToLower(s) == ToLower(t) && ToLower(h) == ToLower(i) && m == n && x == y
       case _ => false
  }

  predicate SameProvider(p: ExtAuthPolicy, q: ExtAuthPolicy) {
    && SamePlace(p, q)
    && (p.service.Http? ==> p.service.pathPrefix == q.service.pathPrefix && p.service.caFile == q.service.caFile)
  }

  // Reading a key back

  lemma FlagAtEnd(a: string, f: bool, b: string, g: bool, mark: string)
    requires mark != "" && mark[|mark| - 1] == '=' && a + mark + Bool(f) == b + mark + Bool(g)
    ensures a == b && f == g
  {
    var s := a + mark + Bool(f);
    assert f ==> s[|s| - 5] == '=';
    assert !f ==> s[|s| - 5] == 'f';
    assert g ==> s[|s| - 5] == '=';
    assert !g ==> s[|s| - 5] == 'f';
    assert a == s[..|a|] && b == s[..|b|];
  }

  lemma FirstField(a: string, c: string, b: string, d: string)
    requires '|' !in a && '|' !in b && a + "|" + c == b + "|" + d
    ensures a == b && c == d
  {
    var s := a + "|" + c;
    assert s[|a|] == '|' && s[|b|] == '|';
    assert forall i :: 0 <= i < |a| ==> s[i] == a[i] && s[i] in a;
    assert forall i :: 0 <= i < |b| ==> s[i] == b[i] && s[i] in b;
    assert |a| == |b|;
    assert a == s[..|a|] && b == s[..|b|] && c == s[|a| + 1..] && d == s[|b| + 1..];
  }

  lemma LowerHasNoBar(s: string)
    requires '|' !in s
    ensures '|' !in ToLower(s)
  {
    forall i | 0 <= i < |s| ensures ToLower(s)[i] != '|' {
      assert s[i] in s;
    }
  }

  lemma AddressHasNoBar(host: string, port: nat)
    requires '|' !in host
    ensures '|' !in JoinHostPort(ToLower(host), port)
  {
    LowerHasNoBar(host);
  }

  /** The position of the first mark. */
  function MarkIn(s: string): nat {
    if s == "" || CA_MARK <= s then 0 else 1 + MarkIn(s[1..])
  }

  lemma {:induction false} MarkAfter(a: string, c: string)
    requires !Contains(a, CA_MARK)
    ensures MarkIn(a + CA_MARK + c) == |a|
  {
    var s := a + CA_MARK + c;
    if a == "" {
      assert s[..4] == CA_MARK;
    } else {
      assert !(CA_MARK <= s) by {
        assert s[|a|] == '|';
        assert |a| >= 4 ==> s[..4] == a[..4];
      }
      assert s[1..] == a[1..] + CA_MARK + c;
      MarkAfter(a[1..], c);
    }
  }

  lemma SplitAtMark(a: string, c: string, b: string, d: string)
    requires !Contains(a, CA_MARK) && !Contains(b, CA_MARK) && a + CA_MARK + c == b + CA_MARK + d
    ensures a == b && c == d
  {
    var s := a + CA_MARK + c;
    MarkAfter(a, c);
    MarkAfter(b, d);
    assert a == s[..|a|] && b == s[..|b|] && c == s[|a| + 4..] && d == s[|b| + 4..];
  }

  function ServiceKey(service: ExtAuthService): string {
    match service
    case NoService => ""
    case Grpc(host, port) => "grpc|" + JoinHostPort(ToLower(host), port)
    case Http(scheme, host, port, pathPrefix, caFile, insecure) =>
      var rest := pathPrefix + CA_MARK + caFile + "|insecure=" + Bool(insecure);
      "http|" + (ToLower(scheme) + "|" + (JoinHostPort(ToLower(host), port) + "|" + rest))
  }

  lemma KeyParts(p: ExtAuthPolicy)
    ensures KeyOf(p) == ServiceKey(p.service) + "|failOpen=" + Bool(p.failOpen)
  {
    hide ToLower, JoinHostPort, Bool;
    match p.service {
      case Http(scheme, host, port, pathPrefix, caFile, insecure) =>
        var last := pathPrefix + CA_MARK + caFile + "|insecure=" + Bool(insecure);
        Regroup("http|", ToLower(scheme), JoinHostPort(ToLower(host), port), last);
      case _ =>
    }
  }

  lemma Regroup(a: string, b: string, c: string, d: string)
    ensures a + b + "|" + c + "|" + d == a + (b + "|" + (c + "|" + d))
  {
  }

  lemma SameHttpKey(p: ExtAuthService, q: ExtAuthService)
    requires p.Http? && q.Http? && UrlOk(p) && UrlOk(q) && ServiceKey(p) == ServiceKey(q)
    ensures ToLower(p.scheme) == ToLower(q.scheme) && ToLower(p.host) == ToLower(q.host) && p.port == q.port
    ensures p.insecure == q.insecure
    ensures p.pathPrefix + CA_MARK + p.caFile == q.pathPrefix + CA_MARK + q.caFile
  {
    hide ToLower, JoinHostPort;
    var a, b := JoinHostPort(ToLower(p.host), p.port), JoinHostPort(ToLower(q.host), q.port);
    var c, d := p.pathPrefix + CA_MARK + p.caFile, q.pathPrefix + CA_MARK + q.caFile;
    var e, f := c + "|insecure=" + Bool(p.insecure), d + "|insecure=" + Bool(q.insecure);
    var g, h := ToLower(p.scheme) + "|" + (a + "|" + e), ToLower(q.scheme) + "|" + (b + "|" + f);
    assert g == ServiceKey(p)[5..] && h == ServiceKey(q)[5..];
    LowerHasNoBar(p.scheme);
    LowerHasNoBar(q.scheme);
    FirstField(ToLower(p.scheme), a + "|" + e, ToLower(q.scheme), b + "|" + f);
    AddressHasNoBar(p.host, p.port);
    AddressHasNoBar(q.host, q.port);
    FirstField(a, e, b, f);
    JoinHostPortInjective(ToLower(p.host), p.port, ToLower(q.host), q.port);
    FlagAtEnd(c, p.insecure, d, q.insecure, "|insecure=");
  }

  /** Policies with one key name the same place; they name the same provider too, unless a path prefix contains the
      mark that ends one. */
  lemma KeyNamesPlace(p: ExtAuthPolicy, q: ExtAuthPolicy)
    requires !p.service.NoService? && !q.service.NoService? && UrlOk(p.service) && UrlOk(q.service)
    requires KeyOf(p) == KeyOf(q)
    ensures SamePlace(p, q) && (Clear(p.service) && Clear(q.service) ==> SameProvider(p, q))
  {
    hide ToLower, JoinHostPort, KeyOf;
    KeyParts(p);
    KeyParts(q);
    FlagAtEnd(ServiceKey(p.service), p.failOpen, ServiceKey(q.service), q.failOpen, "|failOpen=");
    assert ServiceKey(p.service)[0] == if p.service.Grpc? then 'g' else 'h';
    assert ServiceKey(q.service)[0] == if q.service.Grpc? then 'g' else 'h';
    if p.service.Grpc? {
      var a, b := JoinHostPort(ToLower(p.service.host), p.service.port), JoinHostPort(ToLower(q.service.host),
          q.service.port);
      assert a == ServiceKey(p.service)[5..] && b == ServiceKey(q.service)[5..];
      JoinHostPortInjective(ToLower(p.service.host), p.service.port, ToLower(q.service.host), q.service.port);
    } else {
      SameHttpKey(p.service, q.service);
      if Clear(p.service) && Clear(q.service) {
        SplitAtMark(p.service.pathPrefix, p.service.caFile, q.service.pathPrefix, q.service.caFile);
      }
    }
  }

  /** Conversely, the same provider has one key. */
  lemma ProviderHasOneKey(p: ExtAuthPolicy, q: ExtAuthPolicy)
    requires SameProvider(p, q)
    ensures KeyOf(p) == KeyOf(q)
  {
    hide ToLower, JoinHostPort;
  }

  // When a key names one provider only

  /** A mark starts at position j. */
  predicate MarkAt(s: string, j: nat) {
    j <= |s| && CA_MARK <= s[j..]
  }

  lemma {:induction false} MarkContained(s: string, j: nat)
    requires MarkAt(s, j)
    ensures Contains(s, CA_MARK)
  {
    if j > 0 {
      assert s[1..][j - 1..] == s[j..];
      MarkContained(s[1..], j - 1);
    }
  }

  lemma {:induction false} ContainedMark(s: string) returns (j: nat)
    requires Contains(s, CA_MARK)
    ensures MarkAt(s, j)
  {
    if CA_MARK <= s {
      j := 0;
      assert s[0..] == s;
    } else {
      j := ContainedMark(s[1..]);
      assert s[1..][j..] == s[j + 1..];
      j := j + 1;
    }
  }

  lemma MarkChars(s: string, j: nat)
    requires MarkAt(s, j)
    ensures j + 4 <= |s| && s[j] == '|' && s[j + 1] == 'c' && s[j + 2] == 'a' && s[j + 3] == '='
    ensures s == s[..j] + CA_MARK + s[j + 4..]
  {
    var t := s[j..];
    assert t[0] == s[j] && t[1] == s[j + 1] && t[2] == s[j + 2] && t[3] == s[j + 3];
    assert s[j..j + 4] == CA_MARK;
  }

  lemma CharsMark(s: string, j: nat)
    requires j + 4 <= |s| && s[j] == '|' && s[j + 1] == 'c' && s[j + 2] == 'a' && s[j + 3] == '='
    ensures MarkAt(s, j)
  {
    assert s[j..][..4] == CA_MARK;
  }

  /** Every mark of a + CA_MARK + c is the middle one, or lies within a or within c. */
  lemma MarksOf(a: string, c: string, j: nat)
    requires MarkAt(a + CA_MARK + c, j)
    ensures j == |a| || MarkAt(a, j) || (j >= |a| + 4 && MarkAt(c, j - |a| - 4))
  {
    var s := a + CA_MARK + c;
    MarkChars(s, j);
    assert s[|a|] == '|' && s[|a| + 1] == 'c' && s[|a| + 2] == 'a' && s[|a| + 3] == '=';
    if j < |a| {
      assert j + 4 <= |a|;
      CharsMark(a, j);
    } else if j > |a| {
      assert j >= |a| + 4;
      CharsMark(c, j - |a| - 4);
    }
  }

  lemma MarkInMiddle(a: string, c: string)
    ensures MarkAt(a + CA_MARK + c, |a|)
  {
    CharsMark(a + CA_MARK + c, |a|);
  }

  lemma HttpKeyIs(p: ExtAuthPolicy, q: ExtAuthPolicy)
    requires p.service.Http? && q.service.Http?
    requires q.service == p.service.(pathPrefix := q.service.pathPrefix, caFile := q.service.caFile)
    requires q.failOpen == p.failOpen
    requires p.service.pathPrefix + CA_MARK + p.service.caFile == q.service.pathPrefix + CA_MARK + q.service.caFile
    ensures KeyOf(p) == KeyOf(q)
  {
    hide ToLower, JoinHostPort, KeyOf, Bool;
    KeyParts(p);
    KeyParts(q);
  }

  function With(p: ExtAuthPolicy, pathPrefix: string, caFile: string): ExtAuthPolicy
    requires p.service.Http?
  {
    p.(service := p.service.(pathPrefix := pathPrefix, caFile := caFile))
  }

  /** The path is cut at a mark and its end becomes part of the CA file. */
  lemma CutPath(p: ExtAuthPolicy, j: nat) returns (q: ExtAuthPolicy)
    requires p.service.Http? && MarkAt(p.service.pathPrefix, j)
    ensures j + 4 <= |p.service.pathPrefix|
    ensures q == With(p, p.service.pathPrefix[..j], p.service.pathPrefix[j + 4..] + CA_MARK + p.service.caFile)
    ensures KeyOf(q) == KeyOf(p) && q.service.pathPrefix != p.service.pathPrefix
  {
    hide KeyOf;
    var a := p.service.pathPrefix;
    MarkChars(a, j);
    q := With(p, a[..j], a[j + 4..] + CA_MARK + p.service.caFile);
    Rejoin(a[..j], a[j + 4..], p.service.caFile);
    HttpKeyIs(p, q);
  }

  /** The CA file is cut at a mark and its start becomes part of the path. */
  lemma CutCaFile(p: ExtAuthPolicy, j: nat) returns (q: ExtAuthPolicy)
    requires p.service.Http? && MarkAt(p.service.caFile, j)
    ensures j + 4 <= |p.service.caFile|
    ensures q == With(p, p.service.pathPrefix + CA_MARK + p.service.caFile[..j], p.service.caFile[j + 4..])
    ensures KeyOf(q) == KeyOf(p) && q.service.pathPrefix != p.service.pathPrefix
  {
    hide KeyOf;
    var c := p.service.caFile;
    MarkChars(c, j);
    q := With(p, p.service.pathPrefix + CA_MARK + c[..j], c[j + 4..]);
    Rejoin(p.service.pathPrefix, c[..j], c[j + 4..]);
    HttpKeyIs(p, q);
    assert |q.service.pathPrefix| > |p.service.pathPrefix|;
  }

  lemma Rejoin(a: string, b: string, c: string)
    ensures (a + CA_MARK + b) + CA_MARK + c == a + CA_MARK + (b + CA_MARK + c)
  {
  }

  /** Where the path of another policy with the same key ends. */
  lemma OtherPathEnds(p: ExtAuthPolicy, q: ExtAuthPolicy)
    requires p.service.Http? && q.service.Http? && UrlOk(p.service) && UrlOk(q.service) && KeyOf(p) == KeyOf(q)
    ensures var a, c, j := p.service.pathPrefix, p.service.caFile, |q.service.pathPrefix|;
            && a + CA_MARK + c == q.service.pathPrefix + CA_MARK + q.service.caFile
            && (|| (q.service.pathPrefix == a && q.service.caFile == c)
                || MarkAt(a, j)
                || (j >= |a| + 4 && MarkAt(c, j - |a| - 4)))
  {
    hide ToLower, JoinHostPort, KeyOf, Bool;
    KeyParts(p);
    KeyParts(q);
    FlagAtEnd(ServiceKey(p.service), p.failOpen, ServiceKey(q.service), q.failOpen, "|failOpen=");
    SameHttpKey(p.service, q.service);
    var a, c, b, d := p.service.pathPrefix, p.service.caFile, q.service.pathPrefix, q.service.caFile;
    var s := a + CA_MARK + c;
    MarkInMiddle(b, d);
    MarksOf(a, c, |b|);
    if |b| == |a| {
      assert a == s[..|a|] && b == s[..|b|] && c == s[|a| + 4..] && d == s[|b| + 4..];
    }
  }

  /** Neither the path prefix nor the CA file contains the mark that separates them. */
  predicate Unmarked(service: ExtAuthService) {
    service.Http? ==> !Contains(service.pathPrefix, CA_MARK) && !Contains(service.caFile, CA_MARK)
  }

  /** The key of a policy names one provider only exactly when neither its path prefix nor its CA file contains
      the mark that separates them. */
  lemma KeyNamesProviderIff(p: ExtAuthPolicy)
    requires !p.service.NoService? && UrlOk(p.service)
    ensures Unmarked(p.service)
            <==> forall q: ExtAuthPolicy :: !q.service.NoService? && UrlOk(q.service) && KeyOf(q) == KeyOf(p) ==>
                   SameProvider(p, q)
  {
    hide KeyOf, SamePlace, ToLower;
    if Unmarked(p.service) {
      forall q: ExtAuthPolicy | !q.service.NoService? && UrlOk(q.service) && KeyOf(q) == KeyOf(p)
        ensures SameProvider(p, q)
      {
        UnmarkedIsSame(p, q);
      }
    } else if Contains(p.service.pathPrefix, CA_MARK) {
      var j := ContainedMark(p.service.pathPrefix);
      var q := CutPath(p, j);
      assert UrlOk(q.service) && !SameProvider(p, q);
    } else {
      var j := ContainedMark(p.service.caFile);
      var q := CutCaFile(p, j);
      assert UrlOk(q.service) && !SameProvider(p, q);
    }
  }

  lemma UnmarkedIsSame(p: ExtAuthPolicy, q: ExtAuthPolicy)
    requires !p.service.NoService? && !q.service.NoService? && UrlOk(p.service) && UrlOk(q.service)
    requires KeyOf(p) == KeyOf(q) && Unmarked(p.service)
    ensures SameProvider(p, q)
  {
    hide KeyOf;
    KeyNamesPlace(p, q);
    if p.service.Http? {
      OtherPathEnds(p, q);
      var j := |q.service.pathPrefix|;
      if MarkAt(p.service.pathPrefix, j) {
        MarkContained(p.service.pathPrefix, j);
      }
      if j >= |p.service.pathPrefix| + 4 && MarkAt(p.service.caFile, j - |p.service.pathPrefix| - 4) {
        MarkContained(p.service.caFile, j - |p.service.pathPrefix| - 4);
      }
    }
  }

  /** The mark in the CA file from which a validated policy can be mistaken: not at its end, unless an empty CA file
      is allowed, and only behind a path, since a path cannot start with the mark. */
  ghost predicate Mistakable(service: ExtAuthService) {
    && service.Http? && service.scheme == "https"
    && (|| Contains(service.pathPrefix, CA_MARK)
        || (&& service.pathPrefix != ""
            && exists j: nat :: MarkAt(service.caFile, j) && (service.insecure || j + 4 < |service.caFile|)))
  }

  /** Among validated policies the key names one provider only exactly when the policy is not mistakable. */
  lemma ValidatedKeyNamesProviderIff(p: ExtAuthPolicy)
    requires !p.service.NoService? && Validated(p.service)
    ensures !Mistakable(p.service)
            <==> forall q: ExtAuthPolicy :: !q.service.NoService? && Validated(q.service) && KeyOf(q) == KeyOf(p) ==>
                   SameProvider(p, q)
  {
    hide KeyOf, SamePlace, ToLower;
    if !Mistakable(p.service) {
      forall q: ExtAuthPolicy | !q.service.NoService? && Validated(q.service) && KeyOf(q) == KeyOf(p)
        ensures SameProvider(p, q)
      {
        NotMistakenIsSame(p, q);
      }
    } else if Contains(p.service.pathPrefix, CA_MARK) {
      var j := ContainedMark(p.service.pathPrefix);
      MarkChars(p.service.pathPrefix, j);
      var q := CutPath(p, j);
      assert Validated(q.service) && !SameProvider(p, q);
    } else {
      var j: nat :| MarkAt(p.service.caFile, j) && (p.service.insecure || j + 4 < |p.service.caFile|);
      var q := CutCaFile(p, j);
      assert Validated(q.service) && !SameProvider(p, q);
    }
  }

  lemma NotMistakenIsSame(p: ExtAuthPolicy, q: ExtAuthPolicy)
    requires !p.service.NoService? && !q.service.NoService? && Validated(p.service) && Validated(q.service)
    requires KeyOf(p) == KeyOf(q) && !Mistakable(p.service)
    ensures SameProvider(p, q)
  {
    hide KeyOf;
    KeyNamesPlace(p, q);
    if p.service.Http? {
      OtherPathEnds(p, q);
      SchemesAgree(p.service, q.service);
      var a, c, b, d := p.service.pathPrefix, p.service.caFile, q.service.pathPrefix, q.service.caFile;
      var s := a + CA_MARK + c;
      if MarkAt(a, |b|) {
        MarkContained(a, |b|);
      } else if a == "" {
        assert b != "" ==> s[0] == b[0];
        assert s[0] == '|';
      } else if |b| >= |a| + 4 && MarkAt(c, |b| - |a| - 4) {
        assert |c| == |b| - |a| + |d|;
        assert |b| - |a| - 4 + 4 < |c| <==> d != "";
      }
    }
  }

  lemma ValidatedIsUrlOk(service: ExtAuthService)
    requires Validated(service)
    ensures UrlOk(service)
  {
  }

  lemma SchemesAgree(p: ExtAuthService, q: ExtAuthService)
    requires p.Http? && q.Http? && Validated(p) && Validated(q) && ToLower(p.scheme) == ToLower(q.scheme)
    ensures p.scheme == q.scheme
  {
    assert |ToLower("http")| == 4 && |ToLower("https")| == 5;
  }

  /** Two HTTP providers with different paths and CA files, and one key: on one listener they pass as the same. */
  lemma KeyConfusesPaths() returns (p: ExtAuthPolicy, q: ExtAuthPolicy)
    ensures Validated(p.service) && Validated(q.service) && p.service.Http? && q.service.Http? && KeyOf(p) == KeyOf(q)
    ensures p.service.pathPrefix != q.service.pathPrefix && p.service.caFile != q.service.caFile
  {
    p := ExtAuthPolicy(Http("https", "auth", 443, "/check|ca=/a", "/b", false), false, false);
    q := ExtAuthPolicy(Http("https", "auth", 443, "/check", "/a|ca=/b", false), false, false);
    assert p.service.pathPrefix + CA_MARK + p.service.caFile == q.service.pathPrefix + CA_MARK + q.service.caFile;
    KeyParts(p);
    KeyParts(q);
    assert |p.service.pathPrefix| == 12 && |q.service.pathPrefix| == 6;
    assert |p.service.caFile| == 2 && |q.service.caFile| == 8;
  }
}
