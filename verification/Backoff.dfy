/** Restart backoff of the process supervisor, and the poller's backoff. Durations are in nanoseconds. */
module Backoff {
  import opened Arithmetic
  import Limiter

  const SECOND: int := 1_000_000_000
  const WINDOW: int := 10 * 60 * SECOND

  function Pow2(k: nat): nat {
    if k == 0 then 1 else 2 * Pow2(k - 1)
  }

  lemma {:induction false} Pow2Grows(j: nat, k: nat)
    requires j <= k
    ensures 1 <= Pow2(j) <= Pow2(k)
  {
    if k > 0 {
      Pow2Grows(if j < k then j else j - 1, k - 1);
    }
  }

  lemma ScaledGrows(x: int, j: nat, k: nat)
    requires j <= k && x >= 0
    ensures x * Pow2(j) <= x * Pow2(k)
  {
    Pow2Grows(j, k);
    MulGrows(Pow2(j), Pow2(k), x);
  }

  lemma Doubled(x: int, k: nat)
    ensures 2 * (x * Pow2(k)) == x * Pow2(k + 1)
  {
    assert Pow2(k + 1) == 2 * Pow2(k);
  }

  /** Filtering by a later cutoff subsumes filtering by an earlier one. */
  lemma {:induction false} LaterCutoff(s: seq<int>, early: int, late: int)
    requires early <= late
    ensures Limiter.After(Limiter.After(s, early), late) == Limiter.After(s, late)
  {
    if s != [] {
      var init, last := s[..|s| - 1], s[|s| - 1];
      LaterCutoff(init, early, late);
      Limiter.AfterStep(Limiter.After(init, early), last, late);
      assert Limiter.After(s, early) == Limiter.After(init, early) + if last > early then [last] else [];
      assert last <= early ==> Limiter.After(init, early) + [] == Limiter.After(init, early);
    }
  }

  /** One failure: when it happened and how long the process had run. */
  datatype Failure = Failure(at: int, runFor: int)

  function FailureTimes(h: seq<Failure>): seq<int> {
    seq(|h|, i requires 0 <= i < |h| => h[i].at)
  }

  /** Failures since the last one that followed a stable run, that one included. */
  function Streak(h: seq<Failure>, stable: int): nat {
    if h == [] then 0
    else (if h[|h| - 1].runFor >= stable then 0 else Streak(h[..|h| - 1], stable)) + 1
  }

  /** The streak is the longest run of failures at the end of which only the first may follow a stable run. */
  lemma {:induction false} StreakIsMaximal(h: seq<Failure>, stable: int)
    ensures Streak(h, stable) <= |h| && (h != [] ==> Streak(h, stable) > 0)
    ensures forall i :: |h| - Streak(h, stable) < i < |h| ==> h[i].runFor < stable
    ensures Streak(h, stable) < |h| ==> h[|h| - Streak(h, stable)].runFor >= stable
  {
    if h != [] {
      StreakIsMaximal(h[..|h| - 1], stable);
    }
  }

  class RestartBackoff {
    var initial: int
    var max: int
    var resetAfter: int
    var giveUp: int
    var data: array<int>
    var len: nat
    var streak: nat
    /** The failures since the last reset. */
    ghost var history: seq<Failure>

    constructor (initial: int, max: int, resetAfter: int, giveUp: int)
      ensures this.initial == initial && this.max == max && this.resetAfter == resetAfter && this.giveUp == giveUp
      ensures Valid() && history == [] && fresh(data)
    {
      this.initial, this.max, this.resetAfter, this.giveUp := initial, max, resetAfter, giveUp;
      data := new int[4];
      len, streak, history := 0, 0, [];
      new;
      assert data[..0] == [];
    }

    ghost predicate Valid()
      reads this, data
    {
      && len <= data.Length && (resetAfter > 0 || history == [])
      && streak == Streak(history, resetAfter)
      && data[..len]
         == if history == [] then [] else Limiter.After(FailureTimes(history), history[|history| - 1].at - WINDOW)
    }

    method Defaults()
      requires Valid()
      modifies this
      ensures Valid() && history == old(history) && data == old(data) && len == old(len)
      ensures initial == (if old(initial) <= 0 then SECOND else old(initial))
      ensures max == (if old(max) <= 0 then 30 * SECOND else old(max))
      ensures resetAfter == (if old(resetAfter) <= 0 then 60 * SECOND else old(resetAfter))
      ensures giveUp == (if old(giveUp) <= 0 then 5 else old(giveUp))
    {
      if initial <= 0 {
        initial := SECOND;
      }
      if max <= 0 {
        max := 30 * SECOND;
      }
      if resetAfter <= 0 {
        resetAfter := 60 * SECOND;
      }
      if giveUp <= 0 {
        giveUp := 5;
      }
    }

    /** Drops the entries at or before cutoff, in place. */
    method Prune(cutoff: int)
      requires len <= data.Length
      modifies this`len, data
      ensures len <= old(len) && data[..len] == Limiter.After(old(data[..len]), cutoff)
    {
      var k := 0;
      for i := 0 to len
        invariant k <= i && data[..k] == Limiter.After(old(data[..i]), cutoff)
        invariant len == old(len)
        invariant forall j :: i <= j < data.Length ==> data[j] == old(data[j])
      {
        assert old(data[..i + 1]) == old(data[..i]) + [data[i]];
        assert old(data[..i + 1])[..i] == old(data[..i]);
        if data[i] > cutoff {
          ghost var before := data[..k];
          data[k] := data[i];
          assert data[..k + 1] == before + [data[k]];
          k := k + 1;
        }
      }
      len := k;
    }

    method Append(x: int)
      requires len <= data.Length
      modifies this`len, this`data, data
      ensures len <= data.Length && data[..len] == old(data[..len]) + [x] && (data == old(data) || fresh(data))
    {
      if len == data.Length {
        var bigger := new int[2 * len + 1];
        for i := 0 to len
          invariant len == old(len) && data == old(data) && data[..] == old(data[..])
          invariant forall j :: 0 <= j < i ==> bigger[j] == data[j]
        {
          bigger[i] := data[i];
        }
        data := bigger;
        assert data[..len] == old(data[..len]);
      }
      data[len] := x;
      len := len + 1;
    }

    /** The doubling loop: exact, and never above the maximum on the way. */
    method Delay() returns (delay: int, ghost peak: int)
      requires 0 < initial && 0 < max
      ensures delay == Min(initial * Pow2(streak), max)
      ensures delay <= peak && (initial <= max ==> peak <= max)
    {
      delay, peak := initial, initial;
      var i := 0;
      while i < streak && delay < max
        invariant 0 <= i <= streak && delay <= peak && (initial <= max ==> peak <= max)
        invariant delay == initial * Pow2(i) || (delay == max && initial * Pow2(i) >= max)
        decreases streak - i
      {
        Doubled(initial, i);
        ScaledGrows(initial, i + 1, streak);
        if delay > max / 2 {
          delay := max;
          peak := if peak < delay then delay else peak;
          ScaledGrows(initial, i, streak);
          return;
        }
        delay := delay * 2;
        peak := if peak < delay then delay else peak;
        i := i + 1;
      }
      ScaledGrows(initial, i, streak);
      if delay > max {
        delay := max;
      }
    }

    /** The delay doubles with every failure since the last stable run, up to the maximum; degraded is reported
        exactly when enough failures lie in the last ten minutes of the whole history, although older ones are
        pruned in place. */
    method Fail(now: int, runFor: int) returns (delay: int, degraded: bool)
      requires Valid() && (history != [] ==> history[|history| - 1].at <= now)
      modifies this, data
      ensures Valid() && history == old(history) + [Failure(now, runFor)] && (data == old(data) || fresh(data))
      ensures streak > 0 && delay == Min(initial * Pow2(streak - 1), max)
      ensures degraded <==> |Limiter.After(FailureTimes(history), now - WINDOW)| >= giveUp
      ensures initial == (if old(initial) <= 0 then SECOND else old(initial))
      ensures max == (if old(max) <= 0 then 30 * SECOND else old(max))
      ensures resetAfter == (if old(resetAfter) <= 0 then 60 * SECOND else old(resetAfter))
      ensures giveUp == (if old(giveUp) <= 0 then 5 else old(giveUp))
    {
      hide Limiter.After, Pow2, Streak, FailureTimes;
      Defaults();
      Prune(now - WINDOW);
      Append(now);
      Recorded(old(history), Failure(now, runFor), old(data[..len]), data[..len]);
      if runFor >= resetAfter {
        streak := 0;
      }
      ghost var peak;
      delay, peak := Delay();
      StreakStep(history, Failure(now, runFor), resetAfter);
      streak, history := streak + 1, history + [Failure(now, runFor)];
      degraded := len >= giveUp;
    }

    method Reset()
      requires Valid()
      modifies this
      ensures Valid() && history == [] && streak == 0 && len == 0 && data == old(data)
      ensures initial == old(initial) && max == old(max) && resetAfter == old(resetAfter) && giveUp == old(giveUp)
    {
      len, streak, history := 0, 0, [];
      assert data[..0] == [];
    }
  }

  lemma StreakStep(h: seq<Failure>, f: Failure, stable: int)
    ensures Streak(h + [f], stable) == (if f.runFor >= stable then 0 else Streak(h, stable)) + 1
  {
    assert (h + [f])[..|h|] == h;
  }

  /** Pruning and appending keeps exactly the last ten minutes of the history. */
  lemma Recorded(h: seq<Failure>, f: Failure, before: seq<int>, after: seq<int>)
    requires h != [] ==> h[|h| - 1].at <= f.at
    requires before == if h == [] then [] else Limiter.After(FailureTimes(h), h[|h| - 1].at - WINDOW)
    requires after == Limiter.After(before, f.at - WINDOW) + [f.at]
    ensures after == Limiter.After(FailureTimes(h + [f]), f.at - WINDOW)
  {
    hide Limiter.After;
    assert FailureTimes(h + [f]) == FailureTimes(h) + [f.at];
    Limiter.AfterStep(FailureTimes(h), f.at, f.at - WINDOW);
    if h == [] {
      assert FailureTimes(h) == [];
    } else {
      LaterCutoff(FailureTimes(h), h[|h| - 1].at - WINDOW, f.at - WINDOW);
    }
  }

  // The poller

  datatype PollState = PollState(failures: nat, next: int)

  class Poller {
    var backoff: map<string, PollState>

    /** After the f-th failure in a row the path is retried after min(2^(f-1), 60) seconds; a success forgets it. */
    method RecordBackoff(path: string, failed: bool, now: int)
      modifies this
      ensures !failed ==> backoff == old(backoff) - {path}
      ensures failed ==>
        var f := (if path in old(backoff) then old(backoff)[path].failures else 0) + 1;
        backoff == old(backoff)[path := PollState(f, now + Min(Pow2(f - 1) * SECOND, 60 * SECOND))]
    {
      if !failed {
        backoff := backoff - {path};
        return;
      }
      var failures := (if path in backoff then backoff[path].failures else 0) + 1;
      var delay := SECOND;
      var i := 1;
      while i < failures && delay < 60 * SECOND
        invariant 1 <= i <= failures && delay == SECOND * Pow2(i - 1) && backoff == old(backoff)
        decreases failures - i
      {
        Doubled(SECOND, i - 1);
        delay, i := delay * 2, i + 1;
      }
      ScaledGrows(SECOND, i - 1, failures - 1);
      if delay > 60 * SECOND {
        delay := 60 * SECOND;
      }
      backoff := backoff[path := PollState(failures, now + delay)];
    }
  }
}
