/** The Envoy process supervisor: epoch allocation over a durable record, with every start, readiness wait and
    record save allowed to fail. */
module Supervisor {
  import opened Text

  datatype Lifecycle = Idle | Starting | Running | BackingOff | Degraded

  datatype Record = Record(pid: nat, epoch: nat, nextEpoch: nat)

  /** A save replaces the file by a rename and then syncs the directory; the sync may fail after the rename. */
  datatype SaveOutcome = Saved | FailedBefore | FailedAfter

  /** The epoch the next hot restart will use, as loading normalises it. */
  function Next(r: Record): nat {
    if r.nextEpoch <= r.epoch then r.epoch + 1 else r.nextEpoch
  }

  /** No epoch-zero spawn after position i. */
  ghost predicate Recent(spawns: seq<nat>, i: nat)
    requires i < |spawns|
  {
    forall k :: i < k < |spawns| ==> spawns[k] != 0
  }

  /** Between two epoch-zero spawns epochs strictly increase. */
  ghost predicate EpochsRise(spawns: seq<nat>) {
    forall i, j :: 0 <= i < j < |spawns| && NoZero(spawns, i, j) ==> spawns[i] < spawns[j]
  }

  /** The next epoch is above every epoch used since the last epoch-zero spawn. */
  ghost predicate Above(spawns: seq<nat>, next: nat) {
    forall i :: 0 <= i < |spawns| && Recent(spawns, i) ==> spawns[i] < next
  }

  ghost predicate NoZero(spawns: seq<nat>, i: nat, j: nat)
    requires j < |spawns|
  {
    forall k :: i < k <= j ==> spawns[k] != 0
  }

  lemma NoZeroBefore(spawns: seq<nat>, x: nat, i: nat, j: nat)
    requires j < |spawns|
    ensures NoZero(spawns + [x], i, j) <==> NoZero(spawns, i, j)
  {
    var all := spawns + [x];
    assert forall k :: i < k <= j ==> all[k] == spawns[k];
  }

  lemma RecentBefore(spawns: seq<nat>, x: nat, i: nat)
    requires i < |spawns| && Recent(spawns + [x], i)
    ensures Recent(spawns, i) && x != 0
  {
    var all := spawns + [x];
    assert all[|spawns|] == x;
    assert forall k :: i < k < |spawns| ==> all[k] == spawns[k];
  }

  lemma RisesOn(spawns: seq<nat>, x: nat)
    requires EpochsRise(spawns) && (x != 0 ==> Above(spawns, x))
    ensures EpochsRise(spawns + [x])
  {
    var all := spawns + [x];
    forall i, j | 0 <= i < j < |all| && NoZero(all, i, j) ensures all[i] < all[j] {
      if j < |spawns| {
        NoZeroBefore(spawns, x, i, j);
      } else {
        assert all[j] == x;
        RecentBefore(spawns, x, i);
      }
    }
  }

  lemma SpawnNext(spawns: seq<nat>, epoch: nat)
    requires EpochsRise(spawns) && Above(spawns, epoch)
    ensures EpochsRise(spawns + [epoch]) && Above(spawns + [epoch], epoch + 1)
  {
    RisesOn(spawns, epoch);
    var all := spawns + [epoch];
    forall i | 0 <= i < |all| && Recent(all, i) ensures all[i] < epoch + 1 {
      if i < |spawns| {
        RecentBefore(spawns, epoch, i);
      }
    }
  }

  lemma SpawnZero(spawns: seq<nat>, next: nat)
    requires EpochsRise(spawns) && next > 0
    ensures EpochsRise(spawns + [0]) && Above(spawns + [0], next)
  {
    RisesOn(spawns, 0);
    var all := spawns + [0];
    forall i | 0 <= i < |all| && Recent(all, i) ensures all[i] < next {
      assert all[|spawns|] == 0;
      assert i == |spawns|;
    }
  }

  /** What outlives the management process: the record file, and which epochs were ever spawned. */
  class Host {
    var file: Option<Record>
    ghost var spawns: seq<nat>

    constructor ()
      ensures file == None && spawns == []
    {
      file, spawns := None, [];
    }

    ghost predicate Valid()
      reads this
    {
      EpochsRise(spawns) && (file.Some? ==> Above(spawns, Next(file.value)))
    }

    method Load(fault: bool) returns (r: Option<Record>)
      ensures r.Some? ==> file.Some? && r.value == file.value.(nextEpoch := Next(file.value)) && r.value.pid > 0
      ensures r.None? <==> fault || file.None? || file.value.pid == 0
    {
      if fault || file.None? || file.value.pid == 0 {
        return None;
      }
      var record := file.value;
      if record.nextEpoch <= record.epoch {
        record := record.(nextEpoch := record.epoch + 1);
      }
      r := Some(record);
    }

    method Save(record: Record, o: SaveOutcome) returns (ok: bool)
      modifies this`file
      ensures ok <==> o.Saved?
      ensures file == if o.FailedBefore? then old(file) else Some(record)
    {
      if !o.FailedBefore? {
        file := Some(record);
      }
      ok := o.Saved?;
    }
  }

  /** What one attempt to start or restart Envoy meets. */
  datatype Launch = Launch(
    loadFails: bool, reserve: SaveOutcome, startFails: bool, pid: nat, live: bool, final: SaveOutcome)

  class Process {
    const host: Host
    var state: Lifecycle
    var current: Option<(nat, nat)>

    constructor (host: Host)
      ensures this.host == host && state == Idle && current == None
    {
      this.host, state, current := host, Idle, None;
    }

    /** A fresh start at epoch zero, without error exactly when every step of it works. */
    method SpawnAndWait(l: Launch) returns (ok: bool)
      requires host.Valid()
      modifies this, host
      ensures host.Valid()
      ensures host.spawns == if l.startFails then old(host.spawns) else old(host.spawns) + [0]
      ensures ok <==> Starts(l)
      ensures l.startFails ==> host.file == old(host.file)
      ensures !l.startFails ==> host.file == if Recorded(l) then Some(Record(l.pid, 0, 1)) else old(host.file)
      ensures state == if ok then Running else if !l.startFails && l.reserve.Saved? then Starting else old(state)
      ensures current == if !l.startFails && l.reserve.Saved? then Some((l.pid, 0)) else old(current)
    {
      hide EpochsRise, Above;
      ok := false;
      if l.startFails {
        return;
      }
      SpawnZero(host.spawns, 1);
      if host.file.Some? {
        SpawnZero(host.spawns, Next(host.file.value));
      }
      host.spawns := host.spawns + [0];
      var record := Record(l.pid, 0, 1);
      var saved := host.Save(record, l.reserve);
      if !saved {
        return;
      }
      state, current := Starting, Some((l.pid, 0));
      if !l.live {
        return;
      }
      saved := host.Save(record, l.final);
      if !saved {
        return;
      }
      state := Running;
      ok := true;
    }

    /** Allocates an epoch durably before using it. A failure keeps the recorded process and the status, except
        when the save of the new generation fails after the record was replaced. */
    method HotRestart(l: Launch) returns (ok: bool)
      requires host.Valid()
      modifies this, host
      ensures host.Valid()
      ensures host.spawns
              == old(host.spawns)
                 + if RestartReaches(old(state), old(host.file), l) then [Next(old(host.file).value)] else []
      ensures host.file == RestartFile(old(state), old(host.file), l)
      ensures ok <==> RestartReaches(old(state), old(host.file), l) && l.live && l.final.Saved?
      ensures ok ==> current == Some((l.pid, Next(old(host.file).value))) && state == Running
      ensures ok ==> host.file == Some(Record(l.pid, Next(old(host.file).value), Next(old(host.file).value) + 1))
      ensures !ok ==> state == old(state) && current == old(current)
      ensures !ok ==> (SameProcess(old(host.file), host.file) <==> !RecordsDead(old(state), old(host.file), l))
      ensures !ok && RecordsDead(old(state), old(host.file), l) ==>
        host.file == Some(Record(l.pid, Next(old(host.file).value), Next(old(host.file).value) + 1))
    {
      hide EpochsRise, Above;
      ok := false;
      if state != Running {
        return;
      }
      var loaded := host.Load(l.loadFails);
      if loaded.None? {
        return;
      }
      var epoch := loaded.value.nextEpoch;
      var record := loaded.value.(nextEpoch := epoch + 1);
      SpawnNext(host.spawns, epoch);
      assert Above(host.spawns, epoch + 1) by { AboveMore(host.spawns, epoch); }
      var saved := host.Save(record, l.reserve);
      if !saved || l.startFails {
        return;
      }
      host.spawns := host.spawns + [epoch];
      if !l.live {
        saved := host.Save(record, l.final);
        return;
      }
      saved := host.Save(Record(l.pid, epoch, epoch + 1), l.final);
      if !saved {
        return;
      }
      state, current := Running, Some((l.pid, epoch));
      ok := true;
    }

    /** Adopts the recorded generation, gives up, or starts a fresh one. Giving up is not an error. */
    method Start(l: Launch, o: Observation) returns (ok: bool)
      requires host.Valid() && state == Idle
      modifies this, host
      ensures host.Valid()
      ensures Opening(old(host.file), o) == Fresh ==> (
        && (ok <==> Starts(l)) && (ok ==> state == Running && current == Some((l.pid, 0)))
        && (!ok ==> state == if !l.startFails && l.reserve.Saved? then Starting else Idle)
        && current == (if !l.startFails && l.reserve.Saved? then Some((l.pid, 0)) else old(current))
        && host.file == FreshFile(old(host.file), l)
        && host.spawns == if l.startFails then old(host.spawns) else old(host.spawns) + [0])
      ensures Opening(old(host.file), o) != Fresh ==> host.spawns == old(host.spawns) && current == old(current)
      ensures Opening(old(host.file), o) == Unreadable ==> !ok && state == Idle && host.file == old(host.file)
      ensures Opening(old(host.file), o) == GiveUp ==> ok && state == Degraded && host.file == old(host.file)
      ensures Opening(old(host.file), o) == Adopt ==> ok && state == Running && SameProcess(old(host.file), host.file)
      ensures Opening(old(host.file), o) == Adopt ==>
        && old(host.file).Some?
        && host.file == (if l.reserve.FailedBefore? then old(host.file)
                         else Some(old(host.file).value.(nextEpoch := Next(old(host.file).value))))
    {
      hide EpochsRise, Above;
      var loaded := host.Load(o.unreadable);
      if loaded.None? && host.file.Some? {
        return false;
      }
      if loaded.Some? {
        if o.identityFails {
          state := Degraded;
          return true;
        }
        if o.sameProcess {
          if o.epochLive {
            state := Running;
            var _ := host.Save(loaded.value, l.reserve);
            return true;
          }
          if o.keep || o.stopFails {
            state := Degraded;
            return true;
          }
        }
      }
      ok := SpawnAndWait(l);
    }

    /** A process exited. Only the current one counts, and only an epoch-zero generation is restarted. */
    method Exited(pid: nat, epoch: nat, degraded: bool, l: Launch)
      requires host.Valid()
      modifies this, host
      ensures host.Valid()
      ensures old(current) != Some((pid, epoch)) ==>
        host.spawns == old(host.spawns) && host.file == old(host.file) && state == old(state) && current == old(current)
      ensures old(current) == Some((pid, epoch)) && (degraded || epoch != 0) ==>
        host.spawns == old(host.spawns) && host.file == old(host.file) && state == Degraded && current == None
      ensures old(current) == Some((pid, epoch)) && !degraded && epoch == 0 ==> (
        && host.spawns == (if l.startFails then old(host.spawns) else old(host.spawns) + [0])
        && host.file == FreshFile(old(host.file), l)
        && current == (if !l.startFails && l.reserve.Saved? then Some((l.pid, 0)) else None)
        && state == (if Starts(l) then Running else Degraded) && (Starts(l) ==> current == Some((l.pid, 0))))
    {
      if current != Some((pid, epoch)) {
        return;
      }
      current := None;
      if degraded || epoch != 0 {
        state := Degraded;
        return;
      }
      state := BackingOff;
      var ok := SpawnAndWait(l);
      if !ok {
        state := Degraded;
      }
    }
  }

  /** Every step of a fresh start works. */
  predicate Starts(l: Launch) {
    !l.startFails && l.reserve.Saved? && l.live && l.final.Saved?
  }

  /** The record of a fresh start replaces the file, with or without an error. */
  predicate Recorded(l: Launch) {
    !l.reserve.FailedBefore?
  }

  /** The record after a fresh start. */
  function FreshFile(file: Option<Record>, l: Launch): Option<Record> {
    if !l.startFails && Recorded(l) then Some(Record(l.pid, 0, 1)) else file
  }

  /** The record after a hot restart: untouched unless an epoch was taken, then that of the old process with the epoch
      used up, or that of the new one once it is live and its save got past the rename. */
  ghost function RestartFile(state: Lifecycle, file: Option<Record>, l: Launch): Option<Record> {
    if state != Running || l.loadFails || file.None? || file.value.pid == 0 || l.reserve.FailedBefore? then file
    else
      var epoch := Next(file.value);
      if RestartReaches(state, file, l) && l.live && !l.final.FailedBefore? then Some(Record(l.pid, epoch, epoch + 1))
      else Some(file.value.(nextEpoch := epoch + 1))
  }

  /** What a starting supervisor finds out about the record and the process it names. */
  datatype Observation = Observation(
    unreadable: bool, identityFails: bool, sameProcess: bool, epochLive: bool, keep: bool, stopFails: bool)

  datatype Decision = Unreadable | GiveUp | Adopt | Fresh

  /** What it then does. A recorded process that cannot be verified, or that is alive without a confirmed epoch
      under the keep policy, is left alone. */
  function Opening(file: Option<Record>, o: Observation): Decision {
    if file.None? then Fresh
    else if o.unreadable || file.value.pid == 0 then Unreadable
    else if o.identityFails then GiveUp
    else if !o.sameProcess then Fresh
    else if o.epochLive then Adopt
    else if o.keep || o.stopFails then GiveUp
    else Fresh
  }

  /** The save of a live child's record fails past its rename: the child is killed, and yet recorded. */
  ghost predicate RecordsDead(state: Lifecycle, file: Option<Record>, l: Launch) {
    RestartReaches(state, file, l) && l.live && l.final.FailedAfter?
  }

  /** A hot restart gets as far as waiting for its child. */
  ghost predicate RestartReaches(state: Lifecycle, file: Option<Record>, l: Launch) {
    state == Running && !l.loadFails && file.Some? && file.value.pid > 0 && l.reserve.Saved? && !l.startFails
  }

  /** The two records name the same process and epoch. */
  ghost predicate SameProcess(a: Option<Record>, b: Option<Record>) {
    match a
    case None => b.None?
    case Some(r) => b.Some? && b.value.pid == r.pid && b.value.epoch == r.epoch
  }

  lemma AboveMore(spawns: seq<nat>, next: nat)
    requires Above(spawns, next)
    ensures Above(spawns, next + 1)
  {
  }

  // Any history of the host

  datatype Step =
    | NewSupervisor(l: Launch, o: Observation)
    | Restart(l: Launch)
    | Exit(pid: nat, epoch: nat, degraded: bool, l: Launch)

  /** Through failed starts, failed readiness, failed saves and restarts of the management process, every hot
      restart between two epoch-zero spawns uses an epoch above all earlier ones. */
  method Live(host: Host, steps: seq<Step>)
    requires host.Valid()
    modifies host
    ensures host.Valid() && EpochsRise(host.spawns) && old(host.spawns) <= host.spawns
  {
    var p := new Process(host);
    for i := 0 to |steps|
      invariant host.Valid() && p.host == host && fresh(p) && old(host.spawns) <= host.spawns
    {
      match steps[i] {
        case NewSupervisor(l, o) =>
          p := new Process(host);
          var _ := p.Start(l, o);
        case Restart(l) => var _ := p.HotRestart(l);
        case Exit(pid, epoch, degraded, l) => p.Exited(pid, epoch, degraded, l);
      }
    }
  }
}
