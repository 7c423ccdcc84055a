/** Strings as the compiler handles them: case folding, trimming, joining and the
    lexicographic order by which every resource list is sorted. */
module Text {

  datatype Option<+T> = None | Some(value: T)

  function LowerChar(c: char): char {
    if 'A' <= c <= 'Z' then (c as int + 32) as char else c
  }

  function ToLower(s: string): string {
    seq(|s|, i requires 0 <= i < |s| => LowerChar(s[i]))
  }

  predicate IsSpace(c: char) {
    c in " \t\r\n"
  }

  function TrimLeft(s: string): string {
    if s != "" && IsSpace(s[0]) then TrimLeft(s[1..]) else s
  }

  function TrimRight(s: string): string {
    if s != "" && IsSpace(s[|s| - 1]) then TrimRight(s[..|s| - 1]) else s
  }

  function TrimSpace(s: string): string {
    TrimLeft(TrimRight(s))
  }

  function Join(parts: seq<string>, sep: string): string {
    if parts == [] then "" else if |parts| == 1 then parts[0] else parts[0] + sep + Join(parts[1..], sep)
  }

  predicate Contains(s: string, sub: string) {
    sub <= s || (s != "" && Contains(s[1..], sub))
  }

  /** Decimal rendering, most significant digit first. */
  function Itoa(n: nat): (s: string)
    ensures s != ""
    ensures forall c :: c in s ==> '0' <= c <= '9'
  {
    var digit := ['0' + (n % 10) as char];
    if n < 10 then digit else Itoa(n / 10) + digit
  }

  lemma {:induction false} ItoaInjective(m: nat, n: nat)
    requires Itoa(m) == Itoa(n)
    ensures m == n
  {
    var a, b := Itoa(m), Itoa(n);
    assert a[|a| - 1] == '0' + (m % 10) as char && b[|b| - 1] == '0' + (n % 10) as char;
    assert m % 10 == n % 10;
    if m >= 10 && n >= 10 {
      assert a[..|a| - 1] == Itoa(m / 10) && b[..|b| - 1] == Itoa(n / 10);
      ItoaInjective(m / 10, n / 10);
    }
  }

  /** A host that contains a colon is an IPv6 literal. */
  function Bracketed(host: string): string {
    if ':' in host then "[" + host + "]" else host
  }

  function JoinHostPort(host: string, port: nat): string {
    Bracketed(host) + ":" + Itoa(port)
  }

  lemma BracketedInjective(h1: string, h2: string)
    requires Bracketed(h1) == Bracketed(h2)
    ensures h1 == h2
  {
    var b := Bracketed(h1);
    assert ':' in h1 ==> ':' in h2 && h1 == b[1..|b| - 1];
    assert ':' in h2 ==> ':' in h1 && h2 == b[1..|b| - 1];
  }

  /** The joined address determines the host and the port. */
  lemma JoinHostPortInjective(h1: string, p1: nat, h2: string, p2: nat)
    requires JoinHostPort(h1, p1) == JoinHostPort(h2, p2)
    ensures h1 == h2 && p1 == p2
  {
    var b1, b2, s := Bracketed(h1), Bracketed(h2), JoinHostPort(h1, p1);
    assert s[|b1|] == ':' && s[|b2|] == ':';
    assert s[|b1| + 1..] == Itoa(p1) && s[|b2| + 1..] == Itoa(p2);
    forall k | |b1| < k < |s| ensures s[k] != ':' {
      assert s[k] == Itoa(p1)[k - |b1| - 1] && s[k] in Itoa(p1);
    }
    forall k | |b2| < k < |s| ensures s[k] != ':' {
      assert s[k] == Itoa(p2)[k - |b2| - 1] && s[k] in Itoa(p2);
    }
    assert |b1| == |b2|;
    assert b1 == s[..|b1|] && b2 == s[..|b2|];
    ItoaInjective(p1, p2);
    BracketedInjective(h1, h2);
  }

  /** Lexicographic order on code points, the order of Go's string comparison. */
  predicate Le(a: string, b: string) {
    a == "" || (b != "" && (a[0] < b[0] || (a[0] == b[0] && Le(a[1..], b[1..]))))
  }

  lemma LeTotal(a: string, b: string)
    ensures Le(a, b) || Le(b, a)
  {
  }

  lemma {:induction false} LeTransitive(a: string, b: string, c: string)
    requires Le(a, b) && Le(b, c)
    ensures Le(a, c)
  {
    if a != "" && a[0] == b[0] && b[0] == c[0] {
      LeTransitive(a[1..], b[1..], c[1..]);
    }
  }

  lemma {:induction false} LeAntisymmetric(a: string, b: string)
    requires Le(a, b) && Le(b, a)
    ensures a == b
  {
    if a != "" && b != "" {
      LeAntisymmetric(a[1..], b[1..]);
      assert a == [a[0]] + a[1..] && b == [b[0]] + b[1..];
    }
  }
}
