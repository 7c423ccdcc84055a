/** The login limiter: a sliding window per address, compacted in place, and an account lock. Times are in
    nanoseconds and the clock does not run backwards. */
module Limiter {
  import opened Text

  const MINUTE: int := 60_000_000_000
  const LIMIT: nat := 10
  const LOCK: int := 5 * MINUTE
  const ATTEMPTS: nat := 5

  /** The entries of s after cutoff, in order. */
  function After(s: seq<int>, cutoff: int): seq<int> {
    if s == [] then []
    else
      var last := s[|s| - 1];
      After(s[..|s| - 1], cutoff) + if last > cutoff then [last] else []
  }

  ghost predicate Sorted(s: seq<int>) {
    forall i, j :: 0 <= i < j < |s| ==> s[i] <= s[j]
  }

  lemma {:induction false} AfterLength(s: seq<int>, cutoff: int)
    ensures |After(s, cutoff)| <= |s|
    ensures |After(s, cutoff)| == |s| ==> After(s, cutoff) == s
  {
    if s != [] {
      AfterLength(s[..|s| - 1], cutoff);
      assert s == s[..|s| - 1] + [s[|s| - 1]];
    }
  }

  /** The entries of s up to cutoff, in order. */
  ghost function Before(s: seq<int>, cutoff: int): seq<int> {
    if s == [] then []
    else
      var last := s[|s| - 1];
      Before(s[..|s| - 1], cutoff) + if last > cutoff then [] else [last]
  }

  lemma {:induction false} Divided(s: seq<int>, cutoff: int)
    ensures |Before(s, cutoff)| + |After(s, cutoff)| == |s|
    ensures forall x :: x in Before(s, cutoff) ==> x <= cutoff && x in s
    ensures forall x :: x in After(s, cutoff) ==> x > cutoff && x in s
  {
    if s != [] {
      Divided(s[..|s| - 1], cutoff);
    }
  }

  lemma {:induction false} NoneAfter(s: seq<int>, cutoff: int)
    requires forall i :: 0 <= i < |s| ==> s[i] <= cutoff
    ensures After(s, cutoff) == [] && Before(s, cutoff) == s
  {
    if s != [] {
      NoneAfter(s[..|s| - 1], cutoff);
      assert s == s[..|s| - 1] + [s[|s| - 1]];
    }
  }

  /** Of a sorted list, what remains comes after what is dropped. */
  lemma {:induction false} SortedDivides(s: seq<int>, cutoff: int)
    requires Sorted(s)
    ensures s == Before(s, cutoff) + After(s, cutoff)
  {
    if s == [] || s[|s| - 1] <= cutoff {
      NoneAfter(s, cutoff);
    } else {
      SortedDivides(s[..|s| - 1], cutoff);
      assert s == s[..|s| - 1] + [s[|s| - 1]];
    }
  }

  lemma AfterStep(s: seq<int>, x: int, cutoff: int)
    ensures After(s + [x], cutoff) == After(s, cutoff) + if x > cutoff then [x] else []
  {
    assert (s + [x])[..|s|] == s;
  }

  /** Any eleven consecutive admissions span at least a minute. */
  ghost predicate Spaced(granted: seq<int>) {
    forall i :: 0 <= i && i + LIMIT < |granted| ==> granted[i] + MINUTE <= granted[i + LIMIT]
  }

  /** At most ten admissions fall into any minute: the tenth one after an admission is past the minute. */
  lemma TenPerMinute(granted: seq<int>, t: int, i: nat, j: nat)
    requires Sorted(granted) && Spaced(granted) && i + LIMIT <= j < |granted| && t < granted[i]
    ensures t + MINUTE < granted[j]
  {
    assert granted[i] + MINUTE <= granted[i + LIMIT];
    assert granted[i + LIMIT] <= granted[j];
  }

  /** The address check refuses an attempt at time t. */
  predicate Refuses(entries: seq<int>, t: int) {
    |After(entries, t - MINUTE)| >= LIMIT
  }

  lemma RefusalIsExact(entries: seq<int>, now: int, t: int)
    requires Sorted(entries) && |entries| <= LIMIT && Refuses(entries, now) && now <= t
    ensures |entries| == LIMIT && entries[0] + MINUTE > now && (Refuses(entries, t) <==> t < entries[0] + MINUTE)
  {
    hide Sorted;
    AllAfter(entries, now - MINUTE);
    AllAfter(entries, t - MINUTE);
  }

  /** Everything remains exactly when the first entry does. */
  lemma AllAfter(s: seq<int>, cutoff: int)
    requires Sorted(s)
    ensures |After(s, cutoff)| <= |s| && (|After(s, cutoff)| == |s| <==> s == [] || s[0] > cutoff)
  {
    hide After, Before;
    Divided(s, cutoff);
    SortedDivides(s, cutoff);
    var gone := Before(s, cutoff);
    if gone != [] {
      assert s[0] == gone[0] && gone[0] in gone;
    } else if s != [] {
      assert s[0] == After(s, cutoff)[0] && s[0] in After(s, cutoff);
    }
  }

  class AddressLog {
    const data: array<int>
    var len: nat
    /** Every admitted attempt, those no longer in the log, and the time of the last call. */
    ghost var granted: seq<int>
    ghost var dropped: seq<int>
    ghost var seen: int

    constructor (now: int)
      ensures Valid() && len == 0 && granted == [] && seen == now && fresh(data)
    {
      data := new int[LIMIT];
      len, granted, dropped, seen := 0, [], [], now;
      new;
      assert data[..len] == [];
    }

    ghost predicate Valid()
      reads this, data
    {
      data.Length == LIMIT && len <= LIMIT && granted == dropped + data[..len] && LogOk(dropped, data[..len], seen)
    }

    /** Compacts the log in place: the slice being filled shares its array with the slice being read. */
    method Compact(cutoff: int) returns (k: nat)
      requires len <= data.Length
      modifies data
      ensures k <= len && data[..k] == After(old(data[..len]), cutoff)
      ensures k == len ==> data[..] == old(data[..])
    {
      k := 0;
      for i := 0 to len
        invariant k <= i && data[..k] == After(old(data[..i]), cutoff)
        invariant forall j :: i <= j < data.Length ==> data[j] == old(data[j])
      {
        assert old(data[..i + 1]) == old(data[..i]) + [data[i]];
        assert old(data[..i + 1])[..i] == old(data[..i]);
        if data[i] > cutoff {
          ghost var before := data[..k];
          data[k] := data[i];
          assert data[..k + 1] == before + [data[k]];
          k := k + 1;
        }
      }
      AfterLength(old(data[..len]), cutoff);
      assert k == len ==> forall j :: 0 <= j < k ==> data[..k][j] == old(data[..len])[j];
    }

    /** Admits the attempt or tells when to retry. A refusal writes nothing back and yet leaves the log as it
        was; the delay is exact: every earlier attempt is refused, one at that instant is not. */
    method Admit(now: int) returns (retry: Option<int>)
      requires Valid() && seen <= now
      modifies this, data
      ensures Valid() && seen == now
      ensures retry.None? <==> !Refuses(old(data[..len]), now)
      ensures retry.None? ==> granted == old(granted) + [now]
      ensures retry.None? ==> data[..len] == After(old(data[..len]), now - MINUTE) + [now]
      ensures retry.Some? ==> granted == old(granted) && len == old(len) && data[..] == old(data[..])
      ensures retry.Some? ==>
        retry.value > 0 && forall t :: now <= t ==> (Refuses(data[..len], t) <==> t < now + retry.value)
    {
      hide After, Before, LogOk, Refuses;
      ghost var was := data[..len];
      var k := Compact(now - MINUTE);
      Decision(dropped, was, seen, now);
      if k >= LIMIT {
        assert data[..len] == was;
        retry := Some(data[0] + MINUTE - now);
        seen := now;
        return;
      }
      ghost var before := data[..k];
      data[k] := now;
      assert data[..k + 1] == before + [now];
      Regroup(dropped, Before(was, now - MINUTE), After(was, now - MINUTE), now);
      dropped := dropped + Before(was, now - MINUTE);
      len, granted, seen, retry := k + 1, granted + [now], now, None;
    }
  }

  lemma Regroup(a: seq<int>, b: seq<int>, c: seq<int>, x: int)
    ensures (a + (b + c)) + [x] == (a + b) + (c + [x])
  {
  }

  /** Admissions in order, none later than seen. */
  ghost predicate InOrder(granted: seq<int>, seen: int) {
    Sorted(granted) && Spaced(granted) && forall i :: 0 <= i < |granted| ==> granted[i] <= seen
  }

  /** Every entry is at least a minute before t. */
  ghost predicate Past(s: seq<int>, t: int) {
    forall i :: 0 <= i < |s| ==> s[i] + MINUTE <= t
  }

  /** The log follows what was dropped from it, which is more than a minute old. */
  ghost predicate LogOk(dropped: seq<int>, entries: seq<int>, seen: int) {
    InOrder(dropped + entries, seen) && Past(dropped, seen)
  }

  /** Both outcomes of an attempt keep the log in order. */
  lemma Decision(dropped: seq<int>, entries: seq<int>, seen: int, now: int)
    requires LogOk(dropped, entries, seen) && |entries| <= LIMIT && seen <= now
    ensures |After(entries, now - MINUTE)| <= |entries|
    ensures |After(entries, now - MINUTE)| >= LIMIT <==> Refuses(entries, now)
    ensures Refuses(entries, now) ==>
      && |entries| == LIMIT && LogOk(dropped, entries, now) && entries[0] + MINUTE > now
      && forall t :: now <= t ==> (Refuses(entries, t) <==> t < entries[0] + MINUTE)
    ensures entries == Before(entries, now - MINUTE) + After(entries, now - MINUTE)
    ensures !Refuses(entries, now) ==>
      LogOk(dropped + Before(entries, now - MINUTE), After(entries, now - MINUTE) + [now], now)
  {
    hide After, Before, LogOk, Refuses, Sorted;
    EntriesSorted(dropped, entries, seen);
    RefusesMeans(entries, now);
    AllAfter(entries, now - MINUTE);
    SortedDivides(entries, now - MINUTE);
    if Refuses(entries, now) {
      LaterOk(dropped, entries, seen, now);
      forall t | now <= t
        ensures |entries| == LIMIT && entries[0] + MINUTE > now && (Refuses(entries, t) <==> t < entries[0] + MINUTE)
      {
        RefusalIsExact(entries, now, t);
      }
      assert now <= now;
    } else {
      Divided(entries, now - MINUTE);
      AdmissionOk(dropped, Before(entries, now - MINUTE), After(entries, now - MINUTE), seen, now);
    }
  }

  lemma EntriesSorted(dropped: seq<int>, entries: seq<int>, seen: int)
    requires LogOk(dropped, entries, seen)
    ensures Sorted(entries)
  {
    var all := dropped + entries;
    assert forall i :: 0 <= i < |entries| ==> entries[i] == all[|dropped| + i];
  }

  lemma RefusesMeans(entries: seq<int>, t: int)
    ensures Refuses(entries, t) <==> |After(entries, t - MINUTE)| >= LIMIT
  {
  }

  lemma LaterOk(dropped: seq<int>, entries: seq<int>, seen: int, now: int)
    requires LogOk(dropped, entries, seen) && seen <= now
    ensures LogOk(dropped, entries, now)
  {
  }

  /** One more admission when fewer than ten lie in the last minute. */
  lemma AdmissionOk(dropped: seq<int>, gone: seq<int>, kept: seq<int>, seen: int, now: int)
    requires LogOk(dropped, gone + kept, seen) && seen <= now && |kept| < LIMIT
    requires forall x :: x in gone ==> x <= now - MINUTE
    ensures LogOk(dropped + gone, kept + [now], now)
  {
    hide InOrder, Past;
    assert dropped + (gone + kept) == (dropped + gone) + kept;
    assert (dropped + gone) + (kept + [now]) == ((dropped + gone) + kept) + [now];
    PastTogether(dropped, gone, seen, now);
    StillInOrder(dropped + gone, kept, seen, now);
  }

  lemma PastTogether(dropped: seq<int>, gone: seq<int>, seen: int, now: int)
    requires Past(dropped, seen) && seen <= now && forall x :: x in gone ==> x <= now - MINUTE
    ensures Past(dropped + gone, now)
  {
    assert forall i :: 0 <= i < |gone| ==> gone[i] in gone;
  }

  lemma StillInOrder(past: seq<int>, kept: seq<int>, seen: int, now: int)
    requires InOrder(past + kept, seen) && seen <= now && Past(past, now) && |kept| < LIMIT
    ensures InOrder((past + kept) + [now], now)
  {
    var granted := past + kept;
    var all := granted + [now];
    forall i | 0 <= i && i + LIMIT < |all| ensures all[i] + MINUTE <= all[i + LIMIT] {
      if i + LIMIT == |granted| {
        assert all[i] == past[i];
      } else {
        assert all[i] == granted[i] && all[i + LIMIT] == granted[i + LIMIT];
      }
    }
  }

  // The account lock

  /** lockedUntil is None for the zero time. */
  datatype Account = Account(count: nat, lockedUntil: Option<int>)

  const FRESH := Account(0, None)

  predicate Locked(a: Account, now: int) {
    a.lockedUntil.Some? && now < a.lockedUntil.value
  }

  function Failed(a: Account, now: int): Account {
    if a.count + 1 >= ATTEMPTS then Account(0, Some(now + LOCK)) else a.(count := a.count + 1)
  }

  function FailedAt(a: Account, times: seq<int>): Account {
    if times == [] then a else Failed(FailedAt(a, times[..|times| - 1]), times[|times| - 1])
  }

  /** Counting from a fresh account, every fifth failure locks it for five minutes from that failure. */
  lemma {:induction false} EveryFifthFailureLocks(times: seq<int>)
    ensures FailedAt(FRESH, times).count == |times| % ATTEMPTS
    ensures FailedAt(FRESH, times).lockedUntil ==
      if |times| < ATTEMPTS then None else Some(times[|times| - |times| % ATTEMPTS - 1] + LOCK)
  {
    if times != [] {
      EveryFifthFailureLocks(times[..|times| - 1]);
    }
  }

  // Histories of calls

  datatype Call =
    | Attempt(now: int, ip: string, username: string)
    | FailedLogin(now: int, username: string)
    | Succeeded(now: int, username: string)

  predicate Concerns(c: Call, key: string) {
    ToLower(c.username) == key
  }

  /** What one call makes of the account under a key. */
  function Stepped(a: Account, c: Call, key: string): Account {
    if !Concerns(c, key) then a
    else match c
      case Attempt(now, _, _) => if a.lockedUntil.Some? && a.lockedUntil.value <= now then FRESH else a
      case FailedLogin(now, _) => Failed(a, now)
      case Succeeded(_, _) => FRESH
  }

  function History(a: Account, calls: seq<Call>, key: string): Account {
    if calls == [] then a else Stepped(History(a, calls[..|calls| - 1], key), calls[|calls| - 1], key)
  }

  function Failures(calls: seq<Call>, key: string): nat {
    if calls == [] then 0
    else
      var last := calls[|calls| - 1];
      Failures(calls[..|calls| - 1], key) + if last.FailedLogin? && Concerns(last, key) then 1 else 0
  }

  ghost predicate NoSuccess(calls: seq<Call>, key: string) {
    forall i :: 0 <= i < |calls| && calls[i].Succeeded? ==> !Concerns(calls[i], key)
  }

  /** Every attempt under the key comes before u. */
  ghost predicate AttemptsBefore(calls: seq<Call>, key: string, u: int) {
    forall i :: 0 <= i < |calls| && calls[i].Attempt? && Concerns(calls[i], key) ==> calls[i].now < u
  }

  lemma HistoryStep(a: Account, calls: seq<Call>, c: Call, key: string)
    ensures History(a, calls + [c], key) == Stepped(History(a, calls, key), c, key)
  {
    assert (calls + [c])[..|calls|] == calls;
  }

  /** Without a success every failure counts, whatever attempts lie between and whatever other names do. */
  lemma {:induction false} FailuresCount(count: nat, calls: seq<Call>, key: string)
    requires NoSuccess(calls, key) && count + Failures(calls, key) < ATTEMPTS
    ensures History(Account(count, None), calls, key) == Account(count + Failures(calls, key), None)
  {
    if calls != [] {
      FailuresCount(count, calls[..|calls| - 1], key);
    }
  }

  /** The fifth failure of a name without a success in between locks it for five minutes from that failure. */
  lemma FifthFailureLocks(count: nat, calls: seq<Call>, last: Call, key: string)
    requires NoSuccess(calls, key) && count + Failures(calls, key) == ATTEMPTS - 1
    requires last.FailedLogin? && Concerns(last, key)
    ensures History(Account(count, None), calls + [last], key) == Account(0, Some(last.now + LOCK))
  {
    FailuresCount(count, calls, key);
    HistoryStep(Account(count, None), calls, last, key);
  }

  /** A lock lasts to its end unless the name succeeds or fails five times more; the first attempt after it starts
      over. */
  lemma {:induction false} LockHolds(count: nat, u: int, calls: seq<Call>, key: string)
    requires NoSuccess(calls, key) && AttemptsBefore(calls, key, u) && count + Failures(calls, key) < ATTEMPTS
    ensures History(Account(count, Some(u)), calls, key) == Account(count + Failures(calls, key), Some(u))
    ensures forall c: Call :: c.Attempt? && Concerns(c, key) && u <= c.now ==>
              History(Account(count, Some(u)), calls + [c], key) == FRESH
  {
    if calls != [] {
      LockHolds(count, u, calls[..|calls| - 1], key);
    }
    forall c: Call | c.Attempt? && Concerns(c, key) && u <= c.now
      ensures History(Account(count, Some(u)), calls + [c], key) == FRESH
    {
      HistoryStep(Account(count, Some(u)), calls, c, key);
    }
  }

  /** The clock does not run backwards. */
  ghost predicate InTime(calls: seq<Call>, start: int) {
    && (forall i :: 0 <= i < |calls| ==> start <= calls[i].now)
    && (forall i, j :: 0 <= i < j < |calls| ==> calls[i].now <= calls[j].now)
  }

  class LoginLimiter {
    var byIp: map<string, AddressLog>
    var accounts: map<string, Account>

    constructor ()
      ensures byIp == map[] && accounts == map[]
    {
      byIp, accounts := map[], map[];
    }

    ghost function Logs(): set<object>
      reads this
    {
      (set ip | ip in byIp :: byIp[ip]) + set ip | ip in byIp :: byIp[ip].data
    }

    ghost predicate Valid(now: int)
      reads this, Logs()
    {
      && (forall ip :: ip in byIp ==> byIp[ip].Valid() && byIp[ip].seen <= now)
      && (forall a, b :: a in byIp && b in byIp && a != b ==> byIp[a] != byIp[b] && byIp[a].data != byIp[b].data)
    }

    /** The log of an address, created at its first attempt. */
    method LogFor(ip: string, now: int) returns (log: AddressLog)
      requires Valid(now)
      modifies this`byIp
      ensures Valid(now) && ip in byIp && log == byIp[ip] && fresh(Logs() - old(Logs()))
      ensures byIp == if ip in old(byIp) then old(byIp) else old(byIp)[ip := log]
      ensures ip !in old(byIp) ==> log.granted == [] && log.len == 0
    {
      hide LogOk;
      if ip !in byIp {
        log := new AddressLog(now);
        byIp := byIp[ip := log];
      }
      log := byIp[ip];
    }

    method CheckAddress(now: int, ip: string) returns (retry: Option<int>)
      requires Valid(now)
      modifies this`byIp, Logs()
      ensures Valid(now) && fresh(Logs() - old(Logs())) && ip in byIp
      ensures retry.None? <==> !Refuses(old(Entries(ip)), now)
      ensures byIp[ip].granted == old(GrantedTo(ip)) + if retry.None? then [now] else []
      ensures retry.Some? ==>
        retry.value > 0 && forall t :: now <= t ==> (Refuses(Entries(ip), t) <==> t < now + retry.value)
      ensures forall other :: other != ip && other in old(byIp) ==>
        other in byIp && byIp[other] == old(byIp[other]) && byIp[other].granted == old(byIp[other].granted)
    {
      hide Refuses, LogOk;
      var log := LogFor(ip, now);
      assert log.data[..log.len] == old(Entries(ip)) && log.granted == old(GrantedTo(ip));
      retry := AdmitAt(now, ip);
    }

    method AdmitAt(now: int, ip: string) returns (retry: Option<int>)
      requires Valid(now) && ip in byIp
      modifies byIp[ip], byIp[ip].data
      ensures Valid(now)
      ensures retry.None? <==> !Refuses(old(byIp[ip].data[..byIp[ip].len]), now)
      ensures byIp[ip].granted == old(byIp[ip].granted) + if retry.None? then [now] else []
      ensures retry.Some? ==>
        retry.value > 0 && forall t :: now <= t ==> (Refuses(Entries(ip), t) <==> t < now + retry.value)
      ensures forall other :: other in byIp && other != ip ==> byIp[other].granted == old(byIp[other].granted)
    {
      hide Refuses, LogOk;
      retry := byIp[ip].Admit(now);
    }

    /** The account is checked before the address; an expired lock is forgotten. */
    method Allow(now: int, ip: string, username: string) returns (retry: Option<int>)
      requires Valid(now)
      modifies this, Logs()
      ensures Valid(now) && fresh(Logs() - old(Logs()))
      ensures Locked(old(AccountOf(username)), now) ==>
        && old(AccountOf(username)).lockedUntil.Some? && retry == Some(old(AccountOf(username)).lockedUntil.value - now)
        && byIp == old(byIp) && accounts == old(accounts)
      ensures !Locked(old(AccountOf(username)), now) ==>
        && accounts == (if old(AccountOf(username)).lockedUntil.Some? then old(accounts) - {ToLower(username)}
                        else old(accounts))
        && !Locked(AccountOf(username), now) && (retry.None? <==> !Refuses(old(Entries(ip)), now))
        && GrantedTo(ip) == old(GrantedTo(ip)) + (if retry.None? then [now] else [])
      ensures forall other :: other != ip && other in old(byIp) ==>
        other in byIp && byIp[other] == old(byIp[other]) && byIp[other].granted == old(byIp[other].granted)
    {
      hide Refuses, LogOk, Locked, LoginLimiter.Valid, AddressLog.Valid;
      retry := CheckAccount(now, username);
      if retry.None? {
        label checked:
        retry := CheckAddress(now, ip);
        assert accounts == old@checked(accounts);
      }
    }

    /** The time left on a lock; an expired lock is forgotten. */
    method CheckAccount(now: int, username: string) returns (retry: Option<int>)
      requires Valid(now)
      modifies this`accounts
      ensures Valid(now) && Logs() == old(Logs())
      ensures forall ip :: Entries(ip) == old(Entries(ip)) && GrantedTo(ip) == old(GrantedTo(ip))
      ensures retry.Some? <==> Locked(old(AccountOf(username)), now)
      ensures retry.Some? ==>
        old(AccountOf(username)).lockedUntil.Some? && retry == Some(old(AccountOf(username)).lockedUntil.value - now)
      ensures retry.Some? ==> accounts == old(accounts)
      ensures retry.None? ==>
        accounts == if old(AccountOf(username)).lockedUntil.Some? then old(accounts) - {ToLower(username)}
                    else old(accounts)
      ensures retry.None? ==> !Locked(AccountOf(username), now)
    {
      var key := ToLower(username);
      var failure := if key in accounts then accounts[key] else FRESH;
      if failure.lockedUntil.Some? && now < failure.lockedUntil.value {
        return Some(failure.lockedUntil.value - now);
      }
      if failure.lockedUntil.Some? {
        accounts := accounts - {key};
      }
      retry := None;
    }

    ghost function Entries(ip: string): seq<int>
      reads this, Logs()
    {
      if ip in byIp && byIp[ip].len <= byIp[ip].data.Length then byIp[ip].data[..byIp[ip].len] else []
    }

    ghost function AccountOf(username: string): Account
      reads this
    {
      if ToLower(username) in accounts then accounts[ToLower(username)] else FRESH
    }

    ghost function GrantedTo(ip: string): seq<int>
      reads this, Logs()
    {
      if ip in byIp then byIp[ip].granted else []
    }

    method Failure(now: int, username: string)
      modifies this`accounts
      ensures accounts == old(accounts)[ToLower(username) := Failed(old(AccountOf(username)), now)]
    {
      var key := ToLower(username);
      var failure := if key in accounts then accounts[key] else FRESH;
      failure := failure.(count := failure.count + 1);
      if failure.count >= ATTEMPTS {
        failure := Account(0, Some(now + LOCK));
      }
      accounts := accounts[key := failure];
    }

    method Perform(c: Call, ghost start: int) returns (retry: Option<int>)
      requires Valid(start) && start <= c.now
      modifies this, Logs()
      ensures Valid(c.now) && fresh(Logs() - old(Logs()))
      ensures forall key :: In(accounts, key) == Stepped(In(old(accounts), key), c, key)
      ensures var a := In(old(accounts), ToLower(c.username));
              c.Attempt? && a.lockedUntil.Some? && c.now < a.lockedUntil.value ==>
                retry == Some(a.lockedUntil.value - c.now)
    {
      hide Refuses, AddressLog.Valid;
      Later(start, c.now);
      retry := None;
      match c {
        case Attempt(now, ip, username) => retry := Allow(now, ip, username);
        case FailedLogin(now, username) => Failure(now, username);
        case Succeeded(_, username) => Success(username);
      }
    }

    lemma Later(start: int, now: int)
      requires Valid(start) && start <= now
      ensures Valid(now)
    {
    }

    method Success(username: string)
      modifies this`accounts
      ensures accounts == old(accounts) - {ToLower(username)} && AccountOf(username) == FRESH
    {
      accounts := accounts - {ToLower(username)};
    }
  }

  function In(accounts: map<string, Account>, key: string): Account {
    if key in accounts then accounts[key] else FRESH
  }

  /** Call k is told the time left on the lock of its account, if there is one. */
  ghost predicate Told(accounts: map<string, Account>, calls: seq<Call>, k: nat, answer: Option<int>)
    requires k < |calls|
  {
    var key := ToLower(calls[k].username);
    var a := History(In(accounts, key), calls[..k], key);
    calls[k].Attempt? && a.lockedUntil.Some? && calls[k].now < a.lockedUntil.value ==>
      answer == Some(a.lockedUntil.value - calls[k].now)
  }

  /** The accounts after n calls are what their histories make of them. */
  ghost predicate Remembers(now: map<string, Account>, accounts: map<string, Account>, calls: seq<Call>, n: nat)
    requires n <= |calls|
  {
    forall key :: In(now, key) == History(In(accounts, key), calls[..n], key)
  }

  lemma RemembersMore(now: map<string, Account>, next: map<string, Account>, accounts: map<string, Account>,
      calls: seq<Call>, n: nat)
    requires n < |calls| && Remembers(now, accounts, calls, n)
    requires forall key :: In(next, key) == Stepped(In(now, key), calls[n], key)
    ensures Remembers(next, accounts, calls, n + 1)
  {
    hide In, History, Stepped;
    assert calls[..n + 1] == calls[..n] + [calls[n]];
    forall key ensures In(next, key) == History(In(accounts, key), calls[..n + 1], key) {
      HistoryStep(In(accounts, key), calls[..n], calls[n], key);
    }
  }

  lemma IsTold(now: map<string, Account>, accounts: map<string, Account>, calls: seq<Call>, n: nat, answer: Option<int>)
    requires n < |calls| && Remembers(now, accounts, calls, n)
    requires var a := In(now, ToLower(calls[n].username));
             calls[n].Attempt? && a.lockedUntil.Some? && calls[n].now < a.lockedUntil.value ==>
               answer == Some(a.lockedUntil.value - calls[n].now)
    ensures Told(accounts, calls, n, answer)
  {
    hide In, History, ToLower;
  }

  lemma NothingHappened(accounts: map<string, Account>, calls: seq<Call>)
    ensures Remembers(accounts, accounts, calls, 0)
  {
  }

  /** Any sequence of calls: each account is what its own history makes of it, and an attempt on a locked account is
      told exactly the time left. */
  method Serve(l: LoginLimiter, calls: seq<Call>, ghost start: int) returns (answers: seq<Option<int>>)
    requires l.Valid(start) && InTime(calls, start)
    modifies l, l.Logs()
    ensures |answers| == |calls| && Remembers(l.accounts, old(l.accounts), calls, |calls|)
    ensures forall k :: 0 <= k < |calls| ==> Told(old(l.accounts), calls, k, answers[k])
  {
    hide LoginLimiter.Valid, LoginLimiter.Logs, Stepped, Remembers, Told, In, ToLower, Concerns;
    answers := [];
    ghost var at := start;
    NothingHappened(l.accounts, calls);
    for i := 0 to |calls|
      invariant l.Valid(at) && (i < |calls| ==> at <= calls[i].now)
      invariant forall o :: o in l.Logs() && o !in old(l.Logs()) ==> fresh(o)
      invariant |answers| == i && Remembers(l.accounts, old(l.accounts), calls, i)
      invariant forall k :: 0 <= k < i ==> Told(old(l.accounts), calls, k, answers[k])
    {
      ghost var was, logs := l.accounts, l.Logs();
      label before:
      var retry := l.Perform(calls[i], at);
      forall o | o in l.Logs() && o !in old(l.Logs()) ensures fresh(o) {
        assert o !in logs ==> o in l.Logs() - logs && fresh@before(o);
      }
      IsTold(was, old(l.accounts), calls, i, retry);
      RemembersMore(was, l.accounts, old(l.accounts), calls, i);
      answers, at := answers + [retry], calls[i].now;
    }
  }
}
