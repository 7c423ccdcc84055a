/** Static delivery: the artifact is replaced atomically, and a failed hot restart puts the last good one back. */
module StaticDelivery {
  import opened Text
  import opened Supervisor

  datatype Phase = IdlePhase | Delivering | AwaitingConfirm | FailedPhase

  /** What one delivery meets. payload is None when rendering fails. */
  datatype Delivery = Delivery(
    payload: Option<string>, readFails: bool, write: SaveOutcome, launch: Launch, restore: SaveOutcome)

  class Server {
    const process: Process
    const managed: bool
    var artifact: Option<string>
    var version: string
    var phase: Phase

    constructor (process: Process, managed: bool)
      ensures this.process == process && this.managed == managed && artifact == None && version == ""
      ensures phase == IdlePhase
    {
      this.process, this.managed, artifact, version, phase := process, managed, None, "", IdlePhase;
    }

    method Write(payload: string, o: SaveOutcome) returns (ok: bool)
      modifies this`artifact
      ensures ok <==> o.Saved?
      ensures artifact == if o.FailedBefore? then old(artifact) else Some(payload)
    {
      if !o.FailedBefore? {
        artifact := Some(payload);
      }
      ok := o.Saved?;
    }

    /** Puts the previous artifact back, or removes the new one when there was none. */
    method Restore(previous: Option<string>, o: SaveOutcome)
      modifies this`artifact
      ensures artifact == if o.FailedBefore? then old(artifact) else previous
    {
      if previous.Some? {
        var _ := Write(previous.value, o);
      } else if !o.FailedBefore? {
        artifact := None;
      }
    }

    /** Succeeds exactly when every step works, and then artifact, version and, with a managed process, the live
        epoch are the new ones. Failure always keeps the accepted version and the status of the process; it keeps
        the artifact and the recorded process exactly under KeepsArtifact and KeepsProcess. */
    method Apply(ir: Option<string>, d: Delivery) returns (ok: bool)
      requires process.host.Valid()
      modifies this, process, process.host
      ensures process.host.Valid()
      ensures ok
              <==> (|| Repeats(managed, old(version), ir)
                    || Delivers(managed, ir, d, old(process.state), old(process.host.file)))
      ensures ok ==> ir.Some? && version == ir.value
      ensures ok && !Repeats(managed, old(version), ir) ==> artifact == d.payload && phase == AwaitingConfirm
      ensures ok && !Repeats(managed, old(version), ir) && managed ==>
        old(process.host.file).Some? && process.current == Some((d.launch.pid, Next(old(process.host.file).value)))
      ensures Repeats(managed, old(version), ir) ==> artifact == old(artifact) && phase == old(phase)
      ensures ok && (!managed || Repeats(managed, old(version), ir)) ==>
        process.state == old(process.state) && process.current == old(process.current)
      ensures ok && managed && !Repeats(managed, old(version), ir) ==> process.state == Running
      ensures process.host.file
              == if managed && Writes(ir, d) && !Repeats(managed, old(version), ir)
                 then RestartFile(old(process.state), old(process.host.file), d.launch) else old(process.host.file)
      ensures !ok ==> version == old(version) && phase == FailedPhase
      ensures !ok ==> process.state == old(process.state) && process.current == old(process.current)
      ensures !ok ==> artifact == if KeepsArtifact(ir, d, managed) then old(artifact) else d.payload
      ensures !ok ==> (SameProcess(old(process.host.file), process.host.file)
                       <==> KeepsProcess(managed, ir, d, old(process.state), old(process.host.file)))
      ensures !ok && !KeepsProcess(managed, ir, d, old(process.state), old(process.host.file)) ==>
        var epoch := Next(old(process.host.file).value);
        process.host.file == Some(Record(d.launch.pid, epoch, epoch + 1))
    {
      ok := false;
      if ir.None? {
        phase := FailedPhase;
        return;
      }
      if managed && version == ir.value && version != "" {
        return true;
      }
      phase := Delivering;
      if d.payload.None? || d.readFails {
        phase := FailedPhase;
        return;
      }
      var previous := artifact;
      var written := Write(d.payload.value, d.write);
      if !written {
        phase := FailedPhase;
        return;
      }
      if managed {
        var restarted := process.HotRestart(d.launch);
        if !restarted {
          Restore(previous, d.restore);
          phase := FailedPhase;
          return;
        }
      }
      version, phase := ir.value, AwaitingConfirm;
      ok := true;
    }
  }

  /** A managed server treats a repeated version as applied. */
  predicate Repeats(managed: bool, version: string, ir: Option<string>) {
    managed && ir.Some? && ir.value == version && version != ""
  }

  /** Every step up to the hot restart works. */
  predicate Writes(ir: Option<string>, d: Delivery) {
    ir.Some? && d.payload.Some? && !d.readFails && d.write.Saved?
  }

  ghost predicate Delivers(managed: bool, ir: Option<string>, d: Delivery, state: Lifecycle, file: Option<Record>) {
    Writes(ir, d) && (managed ==> RestartReaches(state, file, d.launch) && d.launch.live && d.launch.final.Saved?)
  }

  /** A failed delivery leaves the artifact alone unless the write failed after its rename, or the restoring
      write failed before its own. */
  predicate KeepsArtifact(ir: Option<string>, d: Delivery, managed: bool) {
    || ir.None? || d.payload.None? || d.readFails || d.write.FailedBefore?
    || (d.write.Saved? && managed && !d.restore.FailedBefore?)
  }

  /** A failed delivery leaves the recorded process alone unless it got to the hot restart and a live child's
      record was replaced by a save that then reported an error. */
  ghost predicate KeepsProcess(managed: bool, ir: Option<string>, d: Delivery, state: Lifecycle, file: Option<Record>) {
    !(managed && Writes(ir, d) && RecordsDead(state, file, d.launch))
  }

  /** A directory sync that fails after the rename: the delivery reports an error under the old version, and yet
      the artifact is the new one. */
  method UnsyncedWriteReplacesArtifact() returns (ok: bool, server: Server)
    ensures !ok && server.version == "" && server.artifact == Some("new")
  {
    var host := new Host();
    NoSpawns();
    var process := new Process(host);
    server := new Server(process, false);
    var launch := Launch(false, Saved, false, 1, true, Saved);
    ok := server.Apply(Some("v1"), Delivery(Some("new"), false, FailedAfter, launch, Saved));
  }

  /** A record save that fails after its rename: the delivery reports an error and process 7 is still the current
      one, and yet the record names the killed child, process 9 at epoch 1. */
  method UnsyncedSaveRecordsDeadChild() returns (ok: bool, server: Server)
    ensures !ok && server.process.current == Some((7, 0)) && server.process.host.file == Some(Record(9, 1, 2))
    ensures server.artifact == None && server.version == ""
  {
    var host := new Host();
    NoSpawns();
    var process := new Process(host);
    var started := process.SpawnAndWait(Launch(false, Saved, false, 7, true, Saved));
    server := new Server(process, true);
    var launch := Launch(false, Saved, false, 9, true, FailedAfter);
    ok := server.Apply(Some("v1"), Delivery(Some("new"), false, Saved, launch, Saved));
  }

  lemma NoSpawns()
    ensures EpochsRise([])
  {
  }
}
