/** The sorts applied to resource lists. Insertion sort stands in for the library sort:
    what matters is that the result is an ordered permutation, and that for distinct keys
    it does not depend on the order of the input. */
module Sorting {
  import Text

  ghost predicate Distinct<T>(s: seq<T>) {
    forall i, j :: 0 <= i < j < |s| ==> s[i] != s[j]
  }

  function Insert<T>(x: T, s: seq<T>, le: (T, T) -> bool): seq<T> {
    if s == [] then [x]
    else if le(x, s[0]) then [x] + s
    else [s[0]] + Insert(x, s[1..], le)
  }

  function Sort<T>(s: seq<T>, le: (T, T) -> bool): seq<T> {
    if s == [] then [] else Insert(s[0], Sort(s[1..], le), le)
  }

  function SortStrings(s: seq<string>): seq<string> {
    Sort(s, Text.Le)
  }

  lemma {:induction false} InsertPermutes<T>(x: T, s: seq<T>, le: (T, T) -> bool)
    ensures multiset(Insert(x, s, le)) == multiset(s) + multiset{x}
  {
    if s != [] && !le(x, s[0]) {
      InsertPermutes(x, s[1..], le);
      assert s == [s[0]] + s[1..];
    }
  }

  lemma {:induction false} SortCounts<T>(s: seq<T>, le: (T, T) -> bool)
    ensures multiset(Sort(s, le)) == multiset(s)
  {
    if s != [] {
      SortCounts(s[1..], le);
      InsertPermutes(s[0], Sort(s[1..], le), le);
      assert s == [s[0]] + s[1..];
    }
  }

  lemma SameCounts<T>(s: seq<T>, t: seq<T>)
    requires multiset(s) == multiset(t)
    ensures |s| == |t|
    ensures forall x :: x in s <==> x in t
    ensures forall i :: 0 <= i < |s| ==> s[i] in t
  {
    assert |multiset(s)| == |multiset(t)|;
    forall x ensures x in s <==> x in t {
      assert x in s <==> x in multiset(s);
      assert x in t <==> x in multiset(t);
    }
    forall i | 0 <= i < |s| ensures s[i] in t {
      assert s[i] in multiset(s);
    }
  }

  lemma SortPermutes<T>(s: seq<T>, le: (T, T) -> bool)
    ensures multiset(Sort(s, le)) == multiset(s)
    ensures |Sort(s, le)| == |s|
    ensures forall x :: x in Sort(s, le) <==> x in s
    ensures forall i :: 0 <= i < |Sort(s, le)| ==> Sort(s, le)[i] in s
  {
    hide Sort;
    SortCounts(s, le);
    SameCounts(Sort(s, le), s);
  }

  lemma {:induction false} InsertKeepsDistinct<T>(x: T, s: seq<T>, le: (T, T) -> bool)
    requires Distinct(s) && x !in s
    ensures Distinct(Insert(x, s, le))
  {
    if s != [] && !le(x, s[0]) {
      var rest := Insert(x, s[1..], le);
      InsertKeepsDistinct(x, s[1..], le);
      InsertPermutes(x, s[1..], le);
      forall j | 0 <= j < |rest| ensures rest[j] != s[0] {
        assert rest[j] in multiset(rest);
      }
    }
  }

  lemma {:induction false} SortKeepsDistinct<T>(s: seq<T>, le: (T, T) -> bool)
    requires Distinct(s)
    ensures Distinct(Sort(s, le))
  {
    if s != [] {
      SortKeepsDistinct(s[1..], le);
      SortPermutes(s[1..], le);
      InsertKeepsDistinct(s[0], Sort(s[1..], le), le);
    }
  }

  ghost predicate DistinctBy<T>(s: seq<T>, key: T -> string) {
    forall i, j :: 0 <= i < j < |s| ==> key(s[i]) != key(s[j])
  }

  lemma {:induction false} InsertKeepsDistinctBy<T>(x: T, s: seq<T>, le: (T, T) -> bool, key: T -> string)
    requires DistinctBy(s, key) && forall y :: y in s ==> key(y) != key(x)
    ensures DistinctBy(Insert(x, s, le), key)
  {
    if s != [] && !le(x, s[0]) {
      var rest := Insert(x, s[1..], le);
      InsertKeepsDistinctBy(x, s[1..], le, key);
      InsertPermutes(x, s[1..], le);
      forall j | 0 <= j < |rest| ensures key(rest[j]) != key(s[0]) {
        assert rest[j] in multiset(rest);
        assert rest[j] == x || rest[j] in s[1..];
      }
    }
  }

  lemma {:induction false} SortKeepsDistinctBy<T>(s: seq<T>, le: (T, T) -> bool, key: T -> string)
    requires DistinctBy(s, key)
    ensures DistinctBy(Sort(s, le), key)
  {
    if s != [] {
      SortKeepsDistinctBy(s[1..], le, key);
      SortPermutes(s[1..], le);
      InsertKeepsDistinctBy(s[0], Sort(s[1..], le), le, key);
    }
  }

  ghost predicate Ascending(s: seq<string>) {
    forall i, j :: 0 <= i < j < |s| ==> Text.Le(s[i], s[j])
  }

  lemma {:induction false} InsertAscending(x: string, s: seq<string>)
    requires Ascending(s)
    ensures Ascending(Insert(x, s, Text.Le))
  {
    if s != [] {
      Text.LeTotal(x, s[0]);
      if Text.Le(x, s[0]) {
        forall j | 0 <= j < |s| ensures Text.Le(x, s[j]) {
          if j > 0 { Text.LeTransitive(x, s[0], s[j]); }
        }
      } else {
        var rest := Insert(x, s[1..], Text.Le);
        InsertAscending(x, s[1..]);
        InsertPermutes(x, s[1..], Text.Le);
        forall j | 0 <= j < |rest| ensures Text.Le(s[0], rest[j]) {
          assert rest[j] in multiset(rest);
          assert rest[j] == x || rest[j] in s[1..];
        }
      }
    }
  }

  lemma {:induction false} SortAscending(s: seq<string>)
    ensures Ascending(SortStrings(s))
  {
    if s != [] {
      SortAscending(s[1..]);
      InsertAscending(s[0], SortStrings(s[1..]));
    }
  }

  lemma FirstIsLeast(a: seq<string>, x: string)
    requires Ascending(a) && x in multiset(a)
    ensures Text.Le(a[0], x)
  {
    var i :| 0 <= i < |a| && a[i] == x;
    Text.LeTotal(a[0], a[0]);
  }

  lemma TailCounts(a: seq<string>)
    requires a != []
    ensures multiset(a[1..]) == multiset(a) - multiset{a[0]}
  {
    assert a == [a[0]] + a[1..];
  }

  /** An ascending list is determined by its elements. */
  lemma {:induction false} AscendingUnique(a: seq<string>, b: seq<string>)
    requires Ascending(a) && Ascending(b)
    requires multiset(a) == multiset(b)
    ensures a == b
  {
    assert |multiset(a)| == |a| && |multiset(b)| == |b|;
    if a != [] {
      FirstIsLeast(a, b[0]);
      FirstIsLeast(b, a[0]);
      Text.LeAntisymmetric(a[0], b[0]);
      TailCounts(a);
      TailCounts(b);
      AscendingUnique(a[1..], b[1..]);
      assert a == [a[0]] + a[1..] && b == [b[0]] + b[1..];
    }
  }

  lemma {:induction false} CountDistinct(s: seq<string>, x: string)
    requires Distinct(s)
    ensures multiset(s)[x] == if x in s then 1 else 0
  {
    if s != [] {
      assert s == [s[0]] + s[1..];
      CountDistinct(s[1..], x);
    }
  }

  /** An ascending list without repetitions is determined by the set of its elements. */
  lemma SameSetSameList(s: seq<string>, t: seq<string>)
    requires Ascending(s) && Distinct(s) && Ascending(t) && Distinct(t)
    requires forall x :: x in s <==> x in t
    ensures s == t
  {
    forall x ensures multiset(s)[x] == multiset(t)[x] {
      CountDistinct(s, x);
      CountDistinct(t, x);
    }
    AscendingUnique(s, t);
  }
}
