/** The metrics ring buffer and the window that the API cuts from it. */
module Series {
  import opened Arithmetic

  datatype Key = Key(dim: string, name: string, metric: string)

  /** The copy of a series that a snapshot hands out. */
  datatype Copy = Copy(key: Key, interval: int, values: seq<int>, head: nat, filled: nat)

  /** The last n elements. */
  function Last(s: seq<int>, n: nat): seq<int>
    requires n <= |s|
  {
    s[|s| - n..]
  }

  /** values holds the last samples as a ring: filled of them, the next one going to head. */
  ghost predicate Holds(values: seq<int>, head: nat, filled: nat, samples: seq<int>) {
    && |values| > 0 && head == |samples| % |values| && filled == Min(|samples|, |values|)
    && forall k :: |samples| - filled <= k < |samples| ==> values[k % |values|] == samples[k]
  }

  lemma ModNext(n: nat, c: nat)
    requires c > 0
    ensures (n + 1) % c == (n % c + 1) % c
  {
    var q, r := n / c, n % c;
    Quotient(n, c);
    if r + 1 < c {
      ModIs(n + 1, c, q, r + 1);
      ModIs(r + 1, c, 0, r + 1);
    } else {
      assert (q + 1) * c == q * c + c;
      ModIs(n + 1, c, q + 1, 0);
      ModIs(r + 1, c, 1, 0);
    }
  }

  lemma ModIs(n: nat, c: nat, q: nat, r: nat)
    requires c > 0 && r < c && n == q * c + r
    ensures n % c == r
  {
    Quotient(n, c);
    SameQuotient(n / c, n % c, q, r, c);
  }

  lemma Quotient(n: nat, c: nat)
    requires c > 0
    ensures n == (n / c) * c + n % c && n % c < c
  {
  }

  /** Division with remainder has one result. */
  lemma SameQuotient(p: nat, s: nat, q: nat, r: nat, c: nat)
    requires s < c && r < c && p * c + s == q * c + r
    ensures p == q && s == r
  {
    MulGrows(p + 1, q, c);
    MulGrows(q + 1, p, c);
    assert (p + 1) * c == p * c + c && (q + 1) * c == q * c + c;
  }

  /** Different samples that are still held sit in different slots. */
  lemma SlotsDiffer(j: nat, k: nat, c: nat)
    requires c > 0 && j < k < j + c
    ensures j % c != k % c
  {
    MulGrows(j / c + 1, k / c, c);
    MulGrows(k / c, j / c, c);
    assert j == (j / c) * c + j % c && k == (k / c) * c + k % c;
  }

  lemma AddKeeps(values: seq<int>, head: nat, filled: nat, samples: seq<int>, x: int)
    requires Holds(values, head, filled, samples)
    ensures head < |values|
    ensures Holds(values[head := x], (head + 1) % |values|, Min(filled + 1, |values|), samples + [x])
  {
    var c, n := |values|, |samples|;
    ModNext(n, c);
    var now, all := values[head := x], samples + [x];
    var f := Min(n + 1, c);
    forall k | n + 1 - f <= k < n + 1 ensures now[k % c] == all[k] {
      if k < n {
        SlotsDiffer(k, n, c);
      }
    }
  }

  lemma OneMoreKey<K, V>(m: map<K, V>, k: K, v: V)
    requires k !in m
    ensures |m[k := v]| == |m| + 1
  {
    assert m[k := v].Keys == m.Keys + {k};
    assert |m[k := v]| == |m[k := v].Keys| && |m| == |m.Keys|;
  }

  class SeriesStore {
    const capacity: nat
    const max: nat
    const interval: int
    var series: map<Key, Ring>

    constructor (capacity: int, max: int, interval: int)
      ensures series == map[] && Valid()
      ensures this.capacity == (if capacity <= 0 then 2160 else capacity)
      ensures this.max == (if max <= 0 then 5000 else max)
      ensures this.interval == (if interval <= 0 then 10_000_000_000 else interval)
    {
      this.capacity := if capacity <= 0 then 2160 else capacity;
      this.max := if max <= 0 then 5000 else max;
      this.interval := if interval <= 0 then 10_000_000_000 else interval;
      series := map[];
    }

    ghost function Repr(): set<object>
      reads this
    {
      (set k | k in series :: series[k]) + set k | k in series :: series[k].values
    }

    ghost predicate Valid()
      reads this, Repr()
    {
      && capacity > 0 && max > 0 && interval > 0 && |series| <= max
      && (forall k :: k in series ==> series[k].Valid() && series[k].values.Length == capacity)
      && (forall j, k :: j in series && k in series && j != k ==>
             series[j] != series[k] && series[j].values != series[k].values)
    }

    method NewRing(key: Key) returns (ring: Ring)
      requires Valid() && key !in series && |series| < max
      modifies this
      ensures Valid() && fresh(ring) && fresh(ring.values) && ring.samples == []
      ensures series == old(series)[key := ring]
    {
      hide Holds, Ring.Valid;
      ring := new Ring(capacity);
      OneMoreKey(series, key, ring);
      series := series[key := ring];
    }

    /** The ring of a key, or none when it would be one series too many. */
    method RingFor(key: Key) returns (ring: Ring?)
      requires Valid()
      modifies this
      ensures Valid() && (ring == null <==> key !in old(series) && |old(series)| >= max)
      ensures ring == null ==> series == old(series)
      ensures series.Keys == old(series).Keys + if ring != null then {key} else {}
      ensures forall k :: k in old(series) ==> k in series && series[k] == old(series[k])
      ensures ring != null ==> key in series && series[key] == ring
      ensures ring != null && key in old(series) ==> series == old(series)
      ensures ring != null && key !in old(series) ==>
        series == old(series)[key := ring] && fresh(ring) && fresh(ring.values) && ring.samples == []
    {
      hide Holds;
      if key in series {
        ring := series[key];
      } else if |series| >= max {
        ring := null;
      } else {
        ring := NewRing(key);
      }
    }

    method AddTo(key: Key, x: int)
      requires Valid() && key in series
      modifies series[key], series[key].values
      ensures Valid() && series[key].samples == old(series[key].samples) + [x]
      ensures forall k :: k in series && k != key ==> series[k].samples == old(series[k].samples)
    {
      hide Holds;
      series[key].Put(x);
    }

    /** Records a sample, unless it would start one series too many. */
    method Add(key: Key, x: int) returns (ok: bool)
      requires Valid()
      modifies this, Repr()
      ensures Valid()
      ensures ok <==> key in old(series) || |old(series)| < max
      ensures series.Keys == old(series).Keys + if ok then {key} else {}
      ensures ok ==> series[key].samples == old(SamplesOf(key)) + [x]
      ensures forall k :: k in old(series) && k != key ==> k in series && series[k].samples == old(series[k].samples)
    {
      hide Holds;
      var ring := RingFor(key);
      ok := ring != null;
      if ok {
        AddTo(key, x);
      }
    }

    ghost function SamplesOf(key: Key): seq<int>
      reads this, Repr()
    {
      if key in series then series[key].samples else []
    }
  }

  class Ring {
    const values: array<int>
    var head: nat
    var filled: nat
    /** Every sample ever added. */
    ghost var samples: seq<int>

    constructor (capacity: nat)
      requires capacity > 0
      ensures Valid() && values.Length == capacity && samples == [] && fresh(values)
    {
      values := new int[capacity];
      head, filled, samples := 0, 0, [];
    }

    ghost predicate Valid()
      reads this, values
    {
      Holds(values[..], head, filled, samples)
    }

    method Put(x: int)
      requires Valid()
      modifies this, values
      ensures Valid() && samples == old(samples) + [x]
    {
      AddKeeps(values[..], head, filled, samples, x);
      values[head] := x;
      assert values[..] == old(values[..])[head := x];
      head := (head + 1) % values.Length;
      if filled < values.Length {
        filled := filled + 1;
      }
      samples := samples + [x];
    }

    method Snapshot(key: Key, interval: int) returns (c: Copy)
      requires Valid()
      ensures c == Copy(key, interval, values[..], head, filled) && Holds(c.values, c.head, c.filled, samples)
    {
      c := Copy(key, interval, values[..], head, filled);
    }
  }

  /** How many samples a window shows: all of them when it is shorter than one interval. */
  function Shown(samples: nat, capacity: nat, interval: int, window: int): nat {
    var held := Min(samples, capacity);
    if interval > 0 && window >= 0 && window / interval > 0 then Min(held, window / interval) else held
  }

  function Start(n: nat, c: nat, filled: nat): int
    requires c > 0
  {
    if n % c < filled then n % c - filled + c else n % c - filled
  }

  lemma StartOf(n: nat, c: nat, filled: nat, i: nat)
    requires c > 0 && filled == Min(n, c) && i < filled
    ensures 0 <= Start(n, c, filled) && (Start(n, c, filled) + i) % c == (n - filled + i) % c
  {
    if n < c {
      ModIs(n, c, 0, n);
    } else {
      ModShift(n, c, i);
    }
  }

  lemma ModShift(n: nat, c: nat, i: nat)
    requires c > 0 && c <= n && i < c
    ensures (n % c + i) % c == (n - c + i) % c
  {
    var q, r := n / c, n % c;
    assert n - c + i == (q - 1) * c + r + i;
    if r + i < c {
      ModIs(r + i, c, 0, r + i);
      ModIs(n - c + i, c, q - 1, r + i);
    } else {
      ModIs(r + i, c, 1, r + i - c);
      assert n - c + i == q * c + (r + i - c);
      ModIs(n - c + i, c, q, r + i - c);
    }
  }

  /** The samples a ring holds, oldest first. */
  method Unroll(item: Copy, filled: nat, ghost samples: seq<int>) returns (out: seq<int>)
    requires Holds(item.values, item.head, item.filled, samples) && filled == item.filled && filled > 0
    ensures out == Last(samples, filled)
  {
    hide Holds, Start;
    HoldsParts(item, samples);
    var start := item.head - filled;
    if start < 0 {
      start := start + |item.values|;
    }
    StartIs(|samples|, |item.values|, filled);
    var ordered := new int[filled];
    for i := 0 to filled
      invariant forall j :: 0 <= j < i ==> ordered[j] == samples[|samples| - filled + j]
    {
      StartOf(|samples|, |item.values|, filled, i);
      HoldsAt(item, samples, |samples| - filled + i);
      ordered[i] := item.values[(start + i) % |item.values|];
    }
    out := ordered[..];
  }

  lemma StartIs(n: nat, c: nat, filled: nat)
    requires c > 0
    ensures Start(n, c, filled) == if n % c - filled < 0 then n % c - filled + c else n % c - filled
  {
  }

  lemma HoldsParts(item: Copy, samples: seq<int>)
    requires Holds(item.values, item.head, item.filled, samples)
    ensures |item.values| > 0 && item.head == |samples| % |item.values| && item.filled == Min(|samples|, |item.values|)
  {
  }

  lemma HoldsAt(item: Copy, samples: seq<int>, k: nat)
    requires Holds(item.values, item.head, item.filled, samples) && |samples| - item.filled <= k < |samples|
    ensures item.values[k % |item.values|] == samples[k]
  {
  }

  /** Unrolls the ring and cuts the window: exactly the last samples, oldest first. */
  method TrimSeries(item: Copy, window: int, ghost samples: seq<int>) returns (out: seq<int>)
    requires Holds(item.values, item.head, item.filled, samples) && window >= 0
    ensures out == Last(samples, Shown(|samples|, |item.values|, item.interval, window))
  {
    hide Holds;
    HoldsParts(item, samples);
    var filled := Min(item.filled, |item.values|);
    if filled == 0 {
      return [];
    }
    out := Unroll(item, filled, samples);
    if item.interval > 0 {
      var limit := window / item.interval;
      if limit > 0 && |out| > limit {
        out := out[|out| - limit..];
      }
    }
  }
}
