/** The publisher: every method runs under one lock, and any store, snapshot, compile or delivery call may fail. */
module Publisher {
  import opened Text
  import opened Store
  import opened DraftReplace
  import opened Drafts
  import opened PublishRuns
  import Confirmation

  /** What one publish attempt meets; a field ending in Fails is true when that call returns an error. */
  datatype Attempt = Attempt(
    loadFails: bool, createFails: bool, loadErrors: bool, compiled: Option<string>, validatedFails: bool,
    latestFails: bool, reserveFails: bool, publishingFails: bool, snapshotFails: bool, diffed: bool, diffFails: bool,
    recordFails: bool, applyFails: bool, failedFails: bool, deliveredFails: bool, confirmingFails: bool,
    failRunFails: bool)
  {
    /** Every statement that moves the run row succeeds. */
    predicate UpdatesWork() { !validatedFails && !publishingFails && !confirmingFails && !failRunFails }
  }

  datatype PublishResult = Rejected | Accepted(n: nat, id: nat, ir: string)

  /** The draft loads, and the token, if any, is that of the draft. */
  predicate Loads(data: Area, hash: Files -> string, baseHash: string, a: Attempt) {
    && !a.loadFails && Readable(data) && !Mixed(Sources(data))
    && (baseHash == "" || baseHash == hash(Sources(data)))
  }

  /** Some version is recorded, so that a new one has a parent to be compared with. */
  ghost predicate HasHistory(db: Database) {
    exists n :: n in db.versions && !db.versions[n].state.Reserved?
  }

  /** No publish is active, the configuration compiles, and no statement up to the version row fails. */
  ghost predicate Records(db: Database, a: Attempt) {
    && NoActive(db) && !a.createFails && !a.loadErrors && a.compiled.Some? && !a.validatedFails
    && !a.latestFails && !a.reserveFails && !a.publishingFails && !a.snapshotFails
    && (HasHistory(db) && a.diffed ==> !a.diffFails) && !a.recordFails
  }

  /** The data plane takes the IR, and version and run move to confirmation. */
  predicate Delivers(a: Attempt) {
    !a.applyFails && !a.deliveredFails && !a.confirmingFails
  }

  /** The runs that reached the data plane: awaiting confirmation, timed out or effective. */
  ghost function Reached(db: Database): map<nat, Run> {
    map i | && i in db.runs
            && (db.runs[i].state.RunConfirming? || db.runs[i].state.RunTimeout? || db.runs[i].state.RunEffective?)
          :: db.runs[i]
  }

  /** No publish is left half done, and whatever reached the data plane was accepted by it. */
  ghost predicate Settled(db: Database, delivered: set<nat>) {
    && (forall i :: i in db.runs && db.runs[i].state.Active() ==> db.runs[i].state.RunConfirming?)
    && (forall i :: i in Reached(db) ==> Reached(db)[i].version in delivered)
  }

  ghost function EffectiveOf(db: Database): set<nat> {
    set n | n in db.versions && db.versions[n].state.Effective?
  }

  // What a publish leaves in the tables

  /** The tables with one more run, and a row under a new number. */
  function Placed(was: Database, run: Run, row: Option<(nat, Version)>): Database {
    Database(
      if row.Some? then was.versions[row.value.0 := row.value.1] else was.versions,
      was.runs[was.lastRun + 1 := run], was.lastRun + 1)
  }

  /** The draft loads, and a run can be opened for it. */
  ghost predicate Opens(db: Database, data: Area, hash: Files -> string, baseHash: string, a: Attempt) {
    Loads(data, hash, baseHash, a) && NoActive(db) && !a.createFails
  }

  /** The publish gets a version number. */
  predicate Reserves(a: Attempt) {
    !a.loadErrors && a.compiled.Some? && !a.validatedFails && !a.latestFails && !a.reserveFails
  }

  /** The run of a publish that got no number. A load or compile error fails the validation. */
  function EarlyRun(a: Attempt): Run {
    if a.loadErrors || a.compiled.None? then Run(0, if a.failRunFails then RunValidating else RunValidateFailed)
    else if a.validatedFails then Run(0, RunValidating)
    else Run(0, if a.failRunFails then RunValidated else RunPublishFailed)
  }

  /** The snapshot is taken and the version row is written. */
  predicate Writes(a: Attempt, parent: nat) {
    !a.publishingFails && !a.snapshotFails && (parent > 0 && a.diffed ==> !a.diffFails) && !a.recordFails
  }

  /** The run of a publish with number n. */
  function LateRun(a: Attempt, n: nat, parent: nat): Run {
    if a.publishingFails then Run(0, RunValidated)
    else if Writes(a, parent) && !a.applyFails && !a.deliveredFails then
      Run(n, if a.confirmingFails then RunPublishing else RunConfirming)
    else Run(n, if a.failRunFails then RunPublishing else RunPublishFailed)
  }

  /** The row of its version. */
  function LateRow(a: Attempt, parent: nat, rollbackOf: nat): Version {
    if a.compiled.None? || !Writes(a, parent) then RESERVED
    else
      var state := if a.applyFails then if a.failedFails then Publishing else VersionState.Failed
                   else if a.deliveredFails then Publishing else Confirming;
      Version(a.compiled.value, state, parent, rollbackOf)
  }

  /** A publish that got number n, its parent being the latest version, leaves exactly its run and its row. */
  ghost predicate LeftUnder(was: Database, now: Database, a: Attempt, rollbackOf: nat, n: nat, parent: nat) {
    && IsNext(was, n) && IsLatest(was, None, if parent == 0 then None else Some(parent))
    && now == Placed(was, LateRun(a, n, parent), Some((n, LateRow(a, parent, rollbackOf))))
  }

  /** The whole of the tables after a publish. */
  ghost predicate Leaves(was: Database, now: Database, opens: bool, a: Attempt, rollbackOf: nat) {
    if !opens then now == was
    else if !Reserves(a) then now == Placed(was, EarlyRun(a), None)
    else exists n: nat, parent: nat :: LeftUnder(was, now, a, rollbackOf, n, parent)
  }

  lemma NothingLeft(was: Database, a: Attempt, rollbackOf: nat)
    ensures Leaves(was, was, false, a, rollbackOf)
  {
  }

  lemma RunMoves(was: Database, run: Run, row: Option<(nat, Version)>, next: Run)
    ensures Updated(Placed(was, run, row), was.lastRun + 1, next) == Placed(was, next, row)
  {
  }

  lemma PlacedIs(was: Database, run: Run, row: Option<(nat, Version)>)
    ensures was.lastRun + 1 in Placed(was, run, row).runs && Placed(was, run, row).runs[was.lastRun + 1] == run
    ensures row.Some? ==>
      row.value.0 in Placed(was, run, row).versions && Placed(was, run, row).versions[row.value.0] == row.value.1
  {
  }

  /** Only a publish that could be opened and got a number is recorded. */
  lemma RecordsOpen(db: Database, data: Area, hash: Files -> string, baseHash: string, a: Attempt)
    requires Loads(data, hash, baseHash, a) && Records(db, a)
    ensures Opens(db, data, hash, baseHash, a) && Reserves(a)
  {
  }

  lemma InsertedIsPlaced(was: Database)
    ensures Inserted(was, Run(0, RunValidating)) == Placed(was, Run(0, RunValidating), None)
  {
  }

  lemma RowAppears(was: Database, run: Run, n: nat, v: Version)
    ensures WithVersion(Placed(was, run, None), n, v) == Placed(was, run, Some((n, v)))
  {
  }

  lemma RowChanges(was: Database, run: Run, n: nat, v: Version, w: Version)
    ensures WithVersion(Placed(was, run, Some((n, v))), n, w) == Placed(was, run, Some((n, w)))
  {
  }

  lemma Moves(was: Database, n: nat, v: Version)
    ensures forall w: Version, run: Run ::
              WithVersion(Placed(was, run, Some((n, v))), n, w) == Placed(was, run, Some((n, w)))
    ensures forall w: Version, run: Run, next: Run ::
              Updated(Placed(was, run, Some((n, w))), was.lastRun + 1, next) == Placed(was, next, Some((n, w)))
  {
    hide Placed, WithVersion, Updated;
    forall w: Version, run: Run
      ensures WithVersion(Placed(was, run, Some((n, v))), n, w) == Placed(was, run, Some((n, w)))
    {
      RowChanges(was, run, n, v, w);
    }
    forall w: Version, run: Run, next: Run
      ensures Updated(Placed(was, run, Some((n, w))), was.lastRun + 1, next) == Placed(was, next, Some((n, w)))
    {
      RunMoves(was, run, Some((n, w)), next);
    }
  }

  lemma NextIsSame(was: Database, run: Run, n: nat)
    requires IsNext(Placed(was, run, None), n)
    ensures IsNext(was, n)
  {
  }

  /** What the rows say about a publish that got a number: the run is confirming exactly when the publish is accepted,
      and the version exactly when the data plane took it and its row could be written; a version the data plane
      refused is failed, or still publishing when not even that could be written; before the snapshot is taken and the
      row is written the number is only reserved; a failed publish is recorded as such unless an update failed. */
  lemma RowsMean(a: Attempt, n: nat, parent: nat, rollbackOf: nat)
    requires Reserves(a) && n > 0
    ensures var run, row := LateRun(a, n, parent), LateRow(a, parent, rollbackOf);
            var accepted := Writes(a, parent) && Delivers(a);
            && (run == Run(n, RunConfirming) <==> accepted)
            && (row.state.Confirming? <==> Writes(a, parent) && !a.applyFails && !a.deliveredFails)
            && (row.state.Failed? <==> Writes(a, parent) && a.applyFails && !a.failedFails)
            && (row == RESERVED <==> !Writes(a, parent)) && !row.state.Effective?
            && (!row.state.Reserved? ==>
                  Some(row.ir) == a.compiled && row.parent == parent && row.rollbackOf == rollbackOf)
            && (!accepted && a.UpdatesWork() ==> run == Run(n, RunPublishFailed))
            && !run.state.RunValidateFailed?
  {
  }

  /** And about one that got none: validation failed exactly on a load or compile error whose record succeeded. */
  lemma EarlyRunMeans(a: Attempt)
    requires !Reserves(a)
    ensures EarlyRun(a).version == 0
    ensures EarlyRun(a).state.RunValidateFailed? <==> (a.loadErrors || a.compiled.None?) && !a.failRunFails
    ensures a.UpdatesWork() ==>
      EarlyRun(a).state == if a.loadErrors || a.compiled.None? then RunValidateFailed else RunPublishFailed
  {
  }

  /** An active run that fails leaves no active run, and no version is touched. */
  lemma FailStep(s: System, id: nat, run: Run)
    requires Inv(s) && id in s.db.runs && s.db.runs[id].state.Active() && s.db.runs[id].version == run.version
    requires run.state == RunPublishFailed || (run.state == RunValidateFailed && run.version == 0)
    requires run.version != 0 ==> s.db.runs[id].state.RunPublishing?
    ensures id > 0 && MayUpdate(s.db, id, run) && NoActive(Updated(s.db, id, run))
    ensures EffectiveOf(Updated(s.db, id, run)) == EffectiveOf(s.db) && Reached(Updated(s.db, id, run)) == Reached(s.db)
  {
    assert Fits(s.db, s.db.runs[id]);
  }

  class PublisherObject {
    const store: Tables
    const dir: DataDir
    const hash: Files -> string
    /** The versions whose IR Deliver.Apply accepted. */
    ghost var delivered: set<nat>
    /** Every state the store, the snapshots and the draft went through. */
    ghost var log: seq<System>

    constructor (store: Tables, dir: DataDir, hash: Files -> string)
      requires store.db == Database(map[], map[], 0) && dir.snapshots == map[]
      ensures this.store == store && this.dir == dir && this.hash == hash
      ensures Valid() && Settled(store.db, delivered)
    {
      this.store, this.dir, this.hash, delivered := store, dir, hash, {};
      log := [System(store.db, dir.snapshots, Sources(dir.disk.data))];
      new;
      SourcesHaveForm(dir.disk.data);
      EmptyTables(Sources(dir.disk.data));
    }

    ghost function Now(): System
      reads this, store, dir, dir.disk
    {
      System(store.db, dir.snapshots, Sources(dir.disk.data))
    }

    ghost predicate Valid()
      reads this, store, dir, dir.disk
    {
      IsRun(log) && log[|log| - 1] == Now() && Inv(Now())
    }

    /** Nothing that happened since touched the effective version or a run that reached the data plane. */
    ghost predicate Continues(wasLog: seq<System>, was: Database)
      reads this, store, dir, dir.disk
    {
      Valid() && wasLog <= log && EffectiveOf(store.db) == EffectiveOf(was) && Reached(store.db) == Reached(was)
    }

    ghost method Note(e: Event)
      requires IsRun(log) && Inv(log[|log| - 1]) && Step(log[|log| - 1], e, Now())
      modifies this`log
      ensures Valid() && log == old(log) + [Now()]
    {
      hide Step, Inv, Sources;
      StepKeepsInv(log[|log| - 1], e, Now());
      assert Linked(log[|log| - 1], Now());
      log := log + [Now()];
    }

    /** failRun: the error of the update is ignored. */
    method FailRun(id: nat, run: Run, a: Attempt)
      requires Valid() && id in store.db.runs && store.db.runs[id].state.Active()
      requires store.db.runs[id].version == run.version
      requires run.state == RunPublishFailed || (run.state == RunValidateFailed && run.version == 0)
      requires run.version != 0 ==> store.db.runs[id].state.RunPublishing?
      modifies this`log, store
      ensures Continues(old(log), old(store.db)) && store.db.versions == old(store.db.versions)
      ensures store.db == if a.failRunFails then old(store.db) else Updated(old(store.db), id, run)
      ensures a.UpdatesWork() ==> NoActive(store.db)
    {
      hide Inv, IsRun, Sources, NoActive, OnlyActive, MayUpdate, EffectiveOf, Reached;
      FailStep(Now(), id, run);
      var ok := store.UpdatePublishRun(id, run, a.failRunFails);
      if ok {
        Note(Update(id, run));
      }
    }

    /** Loads the draft, checks the optimistic-concurrency token and opens a run. */
    method Begin(baseHash: string, a: Attempt) returns (id: nat)
      requires Valid()
      modifies this`log, store, dir.disk
      ensures Continues(old(log), old(store.db)) && Sources(dir.disk.data) == Sources(old(dir.disk.data))
      ensures dir.disk.data == Loaded(old(dir.disk.data), a.loadFails)
      ensures id != 0 <==> Opens(old(store.db), old(dir.disk.data), hash, baseHash, a)
      ensures id == 0 ==> store.db == old(store.db)
      ensures id != 0 ==> store.db == Inserted(old(store.db), Run(0, RunValidating)) && id == store.db.lastRun
      ensures id != 0 ==> Readable(dir.disk.data)
    {
      hide IsRun, Sources, EffectiveOf, Reached, Inv, Mixed, Readable;
      var draft := dir.LoadDraft(a.loadFails);
      if draft.None? || (baseHash != "" && baseHash != hash(draft.value)) {
        return 0;
      }
      assert NumberedRuns(store.db) by { Numbered(Now()); }
      id := store.CreatePublishRun(Run(0, RunValidating), a.createFails);
      if id != 0 {
        InsertedEffective(old(store.db));
        Note(Create);
      }
    }

    method ValidateRun(id: nat, a: Attempt, ghost was: Database) returns (ir: Option<string>)
      requires Valid() && id in store.db.runs && store.db.runs[id] == Run(0, RunValidating)
      requires id == was.lastRun + 1 && store.db == Placed(was, Run(0, RunValidating), None)
      modifies this`log, store
      ensures Continues(old(log), old(store.db)) && store.db.versions == old(store.db.versions)
      ensures ir.Some? <==> !a.loadErrors && a.compiled.Some? && !a.validatedFails
      ensures ir.Some? ==> ir == a.compiled && store.db == Placed(was, Run(0, RunValidated), None)
      ensures ir.None? ==> store.db == Placed(was, EarlyRun(a), None)
      ensures ir.None? && a.UpdatesWork() ==> NoActive(store.db)
    {
      hide IsRun, Sources, EffectiveOf, Reached, Inv, NoActive, OnlyActive, MayUpdate, Placed;
      ir := None;
      RunMoves(was, Run(0, RunValidating), None, Run(0, RunValidateFailed));
      RunMoves(was, Run(0, RunValidating), None, Run(0, RunValidated));
      if a.loadErrors || a.compiled.None? {
        FailRun(id, Run(0, RunValidateFailed), a);
        return;
      }
      ValidatedStep(Now(), id);
      var ok := store.UpdatePublishRun(id, Run(0, RunValidated), a.validatedFails);
      if ok {
        Note(Update(id, Run(0, RunValidated)));
        ir := a.compiled;
      }
    }

    method ReserveVersion(id: nat, a: Attempt, ghost was: Database) returns (n: nat, parent: nat, ghost next: nat)
      requires Valid() && id in store.db.runs && store.db.runs[id] == Run(0, RunValidated)
      requires id == was.lastRun + 1 && store.db == Placed(was, Run(0, RunValidated), None)
      modifies this`log, store
      ensures Continues(old(log), old(store.db))
      ensures n != 0 <==> !a.latestFails && !a.reserveFails && !a.publishingFails
      ensures n != 0 ==> id in store.db.runs && store.db.runs[id] == Run(n, RunPublishing)
      ensures n != 0 ==> n !in old(store.db.versions) && n in store.db.versions && store.db.versions[n].state.Reserved?
      ensures a.latestFails || a.reserveFails ==>
        store.db == Placed(was, Run(0, if a.failRunFails then RunValidated else RunPublishFailed), None)
      ensures !a.latestFails && !a.reserveFails ==>
        && IsNext(was, next) && n == (if a.publishingFails then 0 else next)
        && store.db
           == Placed(was, if n == 0 then Run(0, RunValidated) else Run(n, RunPublishing), Some((next, RESERVED)))
        && IsLatest(old(store.db), None, if parent == 0 then None else Some(parent)) && parent < next
      ensures n != 0 ==> forall m :: m in old(store.db.versions) ==> m in store.db.versions && m < n
      ensures n == 0 && a.UpdatesWork() ==> NoActive(store.db)
    {
      hide IsRun, Sources, EffectiveOf, Reached, Inv, NoActive, OnlyActive, MayUpdate, Fits, LinksOk, Placed, IsNext;
      n, parent, next := 0, 0, 0;
      RunMoves(was, Run(0, RunValidated), None, Run(0, RunPublishFailed));
      if a.latestFails {
        FailRun(id, Run(0, RunPublishFailed), a);
        return;
      }
      var latest := store.LatestVersion(None);
      assert 0 !in store.db.versions by { Positive(Now()); }
      var r := store.NextVersionSeq(a.reserveFails);
      if r.None? {
        FailRun(id, Run(0, RunPublishFailed), a);
        return;
      }
      next, parent := r.value, if latest.Some? then latest.value else 0;
      NextIsSame(was, Run(0, RunValidated), next);
      RowAppears(was, Run(0, RunValidated), next, RESERVED);
      RunMoves(was, Run(0, RunValidated), Some((next, RESERVED)), Run(next, RunPublishing));
      ReservedEffective(old(store.db), r.value);
      Unlinked(old(Now()), r.value);
      Note(Reserve(r.value));
      LinkStep(Now(), id, r.value);
      var ok := store.UpdatePublishRun(id, Run(r.value, RunPublishing), a.publishingFails);
      if ok {
        Note(Update(id, Run(r.value, RunPublishing)));
        n := r.value;
      }
    }

    method Capture(n: nat, fault: bool) returns (ok: bool)
      requires Valid() && n in store.db.versions && !Mixed(Sources(dir.disk.data))
      modifies this`log, dir
      ensures ok <==> n !in old(dir.snapshots) && Readable(dir.disk.data) && !fault
      ensures Continues(old(log), store.db)
      ensures dir.snapshots == if ok then old(dir.snapshots)[n := Sources(dir.disk.data)] else old(dir.snapshots)
    {
      hide IsRun, Sources, EffectiveOf, Reached, Inv, Readable, Mixed, SourceForm;
      SnapshotsCaptured(Now(), n);
      ok := dir.Snapshot(n, fault);
      if ok {
        Note(Event.Capture(n));
      }
    }

    method Write(id: nat, n: nat, v: Version, fault: bool) returns (ok: bool)
      requires Valid() && MayRecord(Now(), id, n, v)
      modifies this`log, store
      ensures Continues(old(log), old(store.db)) && ok == !fault
      ensures store.db == if ok then WithVersion(old(store.db), n, v) else old(store.db)
    {
      hide IsRun, Sources, EffectiveOf, Reached, Inv, MayRecord;
      RecordEffective(Now(), id, n, v);
      ok := store.InsertVersion(n, v, fault);
      if ok {
        Note(Record(id, n, v));
      }
    }

    /** Takes the snapshot, stores the difference to the parent and writes the version row. */
    method RecordVersion(id: nat, n: nat, v: Version, a: Attempt, ghost was: Database) returns (ok: bool)
      requires Valid() && id in store.db.runs && store.db.runs[id] == Run(n, RunPublishing)
      requires id == was.lastRun + 1 && store.db == Placed(was, Run(n, RunPublishing), Some((n, RESERVED)))
      requires n in store.db.versions && store.db.versions[n].state.Reserved? && v.state.Publishing?
      requires BackLinks(Now(), n, v)
      requires n !in dir.snapshots && Readable(dir.disk.data) && !Mixed(Sources(dir.disk.data))
      modifies this`log, store, dir
      ensures Continues(old(log), old(store.db))
      ensures ok <==> !a.snapshotFails && (v.parent > 0 && a.diffed ==> !a.diffFails) && !a.recordFails
      ensures ok ==> store.db == Placed(was, Run(n, RunPublishing), Some((n, v)))
      ensures !ok ==>
        store.db
        == Placed(was, Run(n, if a.failRunFails then RunPublishing else RunPublishFailed), Some((n, RESERVED)))
      ensures dir.snapshots
              == if a.snapshotFails then old(dir.snapshots) else old(dir.snapshots)[n := Sources(dir.disk.data)]
      ensures !ok && a.UpdatesWork() ==> NoActive(store.db)
    {
      hide IsRun, Sources, EffectiveOf, Reached, Inv, NoActive, OnlyActive, MayUpdate, Mixed, Readable, Placed;
      RunMoves(was, Run(n, RunPublishing), Some((n, RESERVED)), Run(n, RunPublishFailed));
      RowChanges(was, Run(n, RunPublishing), n, RESERVED, v);
      ok := Capture(n, a.snapshotFails);
      if !ok {
        FailRun(id, Run(n, RunPublishFailed), a);
        return;
      }
      if v.parent > 0 && a.diffed {
        RewriteStep(Now(), id, n);
        ok := store.UpdatePublishRun(id, Run(n, RunPublishing), a.diffFails);
        if !ok {
          FailRun(id, Run(n, RunPublishFailed), a);
          return;
        }
        assert store.db == old(store.db);
      }
      ok := Write(id, n, v, a.recordFails);
      if !ok {
        FailRun(id, Run(n, RunPublishFailed), a);
      }
    }

    /** Hands the IR to the data plane and moves version and run to confirmation. */
    method DeliverVersion(id: nat, n: nat, v: Version, a: Attempt, ghost was: Database) returns (ok: bool)
      requires Valid() && id in store.db.runs && store.db.runs[id] == Run(n, RunPublishing)
      requires id == was.lastRun + 1 && store.db == Placed(was, Run(n, RunPublishing), Some((n, v)))
      requires n in store.db.versions && store.db.versions[n] == v && v.state.Publishing? && n in dir.snapshots
      modifies this, store
      ensures Valid() && old(log) <= log && EffectiveOf(store.db) == EffectiveOf(old(store.db))
      ensures delivered == if a.applyFails then old(delivered) else old(delivered) + {n}
      ensures ok <==> Delivers(a)
      ensures Reached(store.db)
              == if ok then Reached(old(store.db))[id := Run(n, RunConfirming)] else Reached(old(store.db))
      ensures ok ==> store.db == Placed(was, Run(n, RunConfirming), Some((n, v.(state := Confirming))))
      ensures a.applyFails ==>
        store.db == Placed(was, Run(n, if a.failRunFails then RunPublishing else RunPublishFailed),
                           Some((n, if a.failedFails then v else v.(state := VersionState.Failed))))
      ensures !a.applyFails && a.deliveredFails ==>
        store.db == Placed(was, Run(n, if a.failRunFails then RunPublishing else RunPublishFailed), Some((n, v)))
      ensures !a.applyFails && !a.deliveredFails && a.confirmingFails ==>
        store.db == Placed(was, Run(n, RunPublishing), Some((n, v.(state := Confirming))))
      ensures !ok && a.UpdatesWork() ==> NoActive(store.db)
    {
      hide IsRun, Sources, EffectiveOf, Reached, Inv, NoActive, OnlyActive, MayUpdate, BackLinks, Placed;
      Moves(was, n, v);
      ghost var s := Now();
      assert BackLinks(s, n, v.(state := VersionState.Failed)) && BackLinks(s, n, v.(state := Confirming)) by {
        LinksBack(s, n);
      }
      ok := false;
      if a.applyFails {
        var _ := Write(id, n, v.(state := VersionState.Failed), a.failedFails);
        FailRun(id, Run(n, RunPublishFailed), a);
        return;
      }
      delivered := delivered + {n};
      var recorded := Write(id, n, v.(state := Confirming), a.deliveredFails);
      if !recorded {
        FailRun(id, Run(n, RunPublishFailed), a);
        return;
      }
      ConfirmingStep(Now(), id, n);
      ok := store.UpdatePublishRun(id, Run(n, RunConfirming), a.confirmingFails);
      if ok {
        Note(Update(id, Run(n, RunConfirming)));
      }
    }

    /** Everything up to the version row. */
    method Prepare(baseHash: string, rollbackOf: nat, a: Attempt)
      returns (id: nat, n: nat, v: Version, ghost next: nat, ghost parent: nat)
      requires Valid() && (rollbackOf == 0 || rollbackOf in dir.snapshots)
      modifies this`log, store, dir, dir.disk
      ensures Continues(old(log), old(store.db)) && Sources(dir.disk.data) == Sources(old(dir.disk.data))
      ensures dir.disk.data == Loaded(old(dir.disk.data), a.loadFails)
      ensures n != 0 <==> Loads(old(dir.disk.data), hash, baseHash, a) && Records(old(store.db), a)
      ensures !NoActive(old(store.db)) ==> store.db == old(store.db) && dir.snapshots == old(dir.snapshots)
      ensures n == 0 && a.UpdatesWork() ==> store.db == old(store.db) || NoActive(store.db)
      ensures n != 0 ==> id in store.db.runs && store.db.runs[id] == Run(n, RunPublishing)
      ensures n != 0 ==> n in store.db.versions && store.db.versions[n] == v && n !in old(store.db.versions)
      ensures n != 0 ==> a.compiled.Some? && v == Version(a.compiled.value, Publishing, v.parent, rollbackOf)
      ensures n != 0 ==> IsLatest(old(store.db), None, if v.parent == 0 then None else Some(v.parent))
      ensures n != 0 ==> dir.snapshots == old(dir.snapshots)[n := Sources(dir.disk.data)]
      ensures !Opens(old(store.db), old(dir.disk.data), hash, baseHash, a) ==>
        id == 0 && store.db == old(store.db) && dir.snapshots == old(dir.snapshots)
      ensures Opens(old(store.db), old(dir.disk.data), hash, baseHash, a) && !Reserves(a) ==>
        store.db == Placed(old(store.db), EarlyRun(a), None) && dir.snapshots == old(dir.snapshots)
      ensures Opens(old(store.db), old(dir.disk.data), hash, baseHash, a) && Reserves(a) ==>
        && IsNext(old(store.db), next) && IsLatest(old(store.db), None, if parent == 0 then None else Some(parent))
        && (n != 0 <==> Writes(a, parent))
        && (n == 0 ==> store.db == Placed(old(store.db), LateRun(a, next, parent), Some((next, RESERVED))))
        && (n != 0 ==> n == next && v.parent == parent && id == old(store.db).lastRun + 1)
        && (n != 0 ==> store.db == Placed(old(store.db), Run(n, RunPublishing), Some((n, v))))
        && dir.snapshots == (if a.publishingFails || a.snapshotFails then old(dir.snapshots)
                             else old(dir.snapshots)[next := Sources(dir.disk.data)])
    {
      hide IsRun, Sources, EffectiveOf, Reached, Inv, NoActive, IsLatest, Readable, Mixed, HasHistory, BackLinks,
        Placed, IsNext;
      n, v, next, parent := 0, RESERVED, 0, 0;
      id := Begin(baseHash, a);
      if id == 0 {
        return;
      }
      ghost var was := old(store.db);
      assert store.db == Placed(was, Run(0, RunValidating), None) by { InsertedIsPlaced(was); }
      var ir := ValidateRun(id, a, was);
      if ir.None? {
        return;
      }
      PlacedIs(was, Run(0, RunValidated), None);
      ghost var before := store.db;
      var number, latest;
      number, latest, next := ReserveVersion(id, a, was);
      parent := latest;
      SameLatest(before, was, if latest == 0 then None else Some(latest));
      if number == 0 {
        return;
      }
      v := Version(ir.value, Publishing, latest, rollbackOf);
      FreshLinks(old(Now()), Now(), number, v);
      var ok := RecordVersion(id, number, v, a, was);
      if ok {
        PlacedIs(was, Run(number, RunPublishing), Some((number, v)));
        n := number;
      }
    }

    /** Publishes the current draft: accepted exactly when the draft loads, no publish is active, the configuration
        compiles and no call fails. The effective version is left alone, and an accepted publish awaits confirmation
        under a fresh number with its snapshot and history links. */
    method PublishWithBaseLocked(baseHash: string, rollbackOf: nat, a: Attempt) returns (r: PublishResult)
      requires Valid() && (rollbackOf == 0 || rollbackOf in dir.snapshots)
      modifies this, store, dir, dir.disk
      ensures Valid() && old(log) <= log && EffectiveOf(store.db) == EffectiveOf(old(store.db))
      ensures old(delivered) <= delivered && Sources(dir.disk.data) == Sources(old(dir.disk.data))
      ensures dir.disk.data == Loaded(old(dir.disk.data), a.loadFails)
      ensures r.Accepted? <==> Loads(old(dir.disk.data), hash, baseHash, a) && Records(old(store.db), a) && Delivers(a)
      ensures !NoActive(old(store.db)) ==> store.db == old(store.db) && dir.snapshots == old(dir.snapshots)
      ensures old(Settled(store.db, delivered)) && a.UpdatesWork() ==> Settled(store.db, delivered)
      ensures r.Accepted? ==>
        r.id in store.db.runs && store.db.runs[r.id] == Run(r.n, RunConfirming) && r.n in delivered
      ensures r.Accepted? ==> r.n in store.db.versions && r.n !in old(store.db.versions) && a.compiled == Some(r.ir)
      ensures r.Accepted? ==> exists parent ::
        && store.db.versions[r.n] == Version(r.ir, Confirming, parent, rollbackOf)
        && IsLatest(old(store.db), None, if parent == 0 then None else Some(parent))
      ensures r.Accepted? ==> dir.snapshots == old(dir.snapshots)[r.n := Sources(dir.disk.data)]
      ensures Leaves(
        old(store.db), store.db, Opens(old(store.db), old(dir.disk.data), hash, baseHash, a), a, rollbackOf)
      ensures !Opens(old(store.db), old(dir.disk.data), hash, baseHash, a) ==>
        store.db == old(store.db) && dir.snapshots == old(dir.snapshots) && delivered == old(delivered)
      ensures Opens(old(store.db), old(dir.disk.data), hash, baseHash, a) && !Reserves(a) ==>
        && store.db == Placed(old(store.db), EarlyRun(a), None)
        && dir.snapshots == old(dir.snapshots) && delivered == old(delivered)
      ensures Opens(old(store.db), old(dir.disk.data), hash, baseHash, a) && Reserves(a) ==>
        exists n: nat, parent: nat ::
          && LeftUnder(old(store.db), store.db, a, rollbackOf, n, parent)
          && dir.snapshots == (if a.publishingFails || a.snapshotFails then old(dir.snapshots)
                               else old(dir.snapshots)[n := Sources(dir.disk.data)])
          && delivered == old(delivered) + if Writes(a, parent) && !a.applyFails then {n} else {}
    {
      hide IsRun, Sources, EffectiveOf, Reached, Inv, NoActive, Settled, IsLatest, Loads, Records, Placed,
        IsNext, Opens;
      r := Rejected;
      var id, n, v, next, parent := Prepare(baseHash, rollbackOf, a);
      SettledIfReached(old(store.db), old(delivered), store.db, delivered);
      if n == 0 {
        assert Opens(old(store.db), old(dir.disk.data), hash, baseHash, a) && Reserves(a) ==>
          LeftUnder(old(store.db), store.db, a, rollbackOf, next, parent);
        return;
      }
      RecordsOpen(old(store.db), old(dir.disk.data), hash, baseHash, a);
      assert !NoActive(old(store.db)) ==> n == 0 by { RecordsAlone(old(store.db), a); }
      var ok := DeliverVersion(id, n, v, a, old(store.db));
      assert LeftUnder(old(store.db), store.db, a, rollbackOf, next, parent);
      PlacedIs(old(store.db), LateRun(a, n, parent), Some((n, LateRow(a, parent, rollbackOf))));
      if !ok {
        SettledIfReached(old(store.db), old(delivered), store.db, delivered);
        return;
      }
      SettledIfDelivered(old(store.db), old(delivered), Now(), delivered, id, n);
      r := Accepted(n, id, a.compiled.value);
    }

    /** confirmLocked: an observed version other than the recorded one is refused. */
    method ConfirmLocked(id: nat, v: Version, n: nat, observed: string, fault: bool) returns (ok: bool)
      requires Valid() && id in store.db.runs && store.db.runs[id].state.Active() && store.db.runs[id].version == n
      requires n in store.db.versions && store.db.versions[n] == v
      modifies this`log, store
      ensures Valid() && old(log) <= log
      ensures ok <==> observed == v.ir && !fault && !v.state.Reserved?
      ensures ok ==>
        EffectiveOf(store.db) == {n} && store.db == Transitioned(old(store.db), id, n, RunEffective, Effective, true)
      ensures !ok ==> store.db == old(store.db)
      ensures Settled(old(store.db), delivered) ==> Settled(store.db, delivered)
    {
      hide IsRun, Sources, EffectiveOf, Inv, Settled;
      ok := false;
      if observed != v.ir {
        return;
      }
      ConfirmStep(Now(), id, n);
      SettledTransition(store.db, delivered, id, n, RunEffective, Effective, true);
      ok := store.TransitionPublish(id, n, RunEffective, Effective, true, fault);
      if ok {
        Note(Event.Confirm(id, n));
      }
    }

    method ExpireRun(id: nat, n: nat, fault: bool) returns (ok: bool)
      requires Valid() && id in store.db.runs && store.db.runs[id].state.Active() && store.db.runs[id].version == n
      requires n in store.db.versions
      modifies this`log, store
      ensures Valid() && old(log) <= log && EffectiveOf(store.db) == EffectiveOf(old(store.db))
      ensures ok <==> !fault && !old(store.db).versions[n].state.Reserved?
      ensures store.db == if ok then Transitioned(old(store.db), id, n, RunTimeout, TimedOut, false) else old(store.db)
      ensures Settled(old(store.db), delivered) ==> Settled(store.db, delivered)
    {
      hide IsRun, Sources, EffectiveOf, Inv, Settled;
      ExpireStep(Now(), id, n);
      SettledTransition(store.db, delivered, id, n, RunTimeout, TimedOut, false);
      ok := store.TransitionPublish(id, n, RunTimeout, TimedOut, false, fault);
      if ok {
        Note(Expire(id, n));
      }
    }

    method Report(id: nat, n: nat, v: Version, e: Confirmation.ConfirmEvent, fault: bool)
      requires Valid() && AwaitsIr(store.db, id, n, e.expected) && store.db.versions[n] == v
      modifies this`log, store
      ensures Valid() && old(log) <= log
      ensures store.db == if !fault && Decides(v, e) then Answer(old(store.db), id, n, e.confirmed) else old(store.db)
      ensures Answers(old(store.db), e, store.db)
      ensures Settled(old(store.db), delivered) ==> Settled(store.db, delivered)
    {
      hide IsRun, Sources, EffectiveOf, Inv, Settled, Transitioned;
      if e.confirmed {
        var _ := ConfirmLocked(id, v, n, e.observed, fault);
      } else {
        var _ := ExpireRun(id, n, fault);
      }
    }

    /** A confirmation or timeout report. An active run whose version is recorded with the reported IR moves, to
        effective when exactly that IR was observed and to timeout otherwise; no other report changes anything. */
    method HandleConfirmEvent(e: Confirmation.ConfirmEvent, activeFails: bool, getFails: set<nat>,
        transitionFails: bool)
      requires Valid()
      modifies this`log, store
      ensures Valid() && old(log) <= log
      ensures forall id, n :: Heard(old(store.db), id, n, e) && !activeFails && id !in getFails && !transitionFails ==>
        store.db == Answer(old(store.db), id, n, e.confirmed)
      ensures (forall id, n :: Heard(old(store.db), id, n, e) ==> activeFails || id in getFails || transitionFails) ==>
        store.db == old(store.db)
      ensures Answers(old(store.db), e, store.db)
      ensures Settled(old(store.db), delivered) ==> Settled(store.db, delivered)
    {
      hide IsRun, Sources, EffectiveOf, Inv, Settled, Answers, Transitioned, Answer;
      assert Answers(store.db, e, store.db) by { NoAnswer(store.db, e); }
      if activeFails {
        return;
      }
      assert NumberedRuns(store.db) && OneActive(store.db) by { Numbered(Now()); }
      var ids := store.ActivePublishRuns();
      for i := 0 to |ids|
        invariant store.db == old(store.db) && log == old(log) && Valid()
        invariant forall k, n :: 0 <= k < i && AwaitsIr(store.db, ids[k], n, e.expected) ==> ids[k] in getFails
      {
        var id := ids[i];
        assert id in ids;
        var n := store.db.runs[id].version;
        var v := store.GetVersion(n, id in getFails);
        if v.Some? && v.value.ir == e.expected {
          OnlyOneAwaits(store.db, id, n, e.expected);
          assert Heard(store.db, id, n, e) <==> Decides(v.value, e);
          Report(id, n, v.value, e, transitionFails);
          return;
        }
      }
      forall id, n | AwaitsIr(store.db, id, n, e.expected) ensures id in getFails {
        assert id in ids;
      }
    }

    /** An explicit confirmation of a run. */
    method Confirm(id: nat, observed: string, runFails: bool, getFails: bool, transitionFails: bool) returns (ok: bool)
      requires Valid()
      modifies this`log, store
      ensures Valid() && old(log) <= log
      ensures ok <==> (
        && !runFails && !getFails && !transitionFails
        && id in old(store.db).runs && old(store.db).runs[id].state.RunConfirming?
        && old(store.db).runs[id].version in old(store.db).versions
        && observed == old(store.db).versions[old(store.db).runs[id].version].ir)
      ensures ok ==> (
        var n := old(store.db).runs[id].version;
        EffectiveOf(store.db) == {n} && store.db == Transitioned(old(store.db), id, n, RunEffective, Effective, true))
      ensures !ok ==> store.db == old(store.db)
      ensures Settled(old(store.db), delivered) ==> Settled(store.db, delivered)
    {
      hide IsRun, Sources, EffectiveOf, Inv, Settled, Transitioned;
      ok := false;
      var run := store.GetPublishRun(id, runFails);
      if run.None? || !run.value.state.RunConfirming? {
        return;
      }
      var v := store.GetVersion(run.value.version, getFails);
      if v.None? || observed != v.value.ir {
        return;
      }
      ConfirmingNotReserved(Now(), id);
      ok := ConfirmLocked(id, v.value, run.value.version, observed, transitionFails);
    }

    /** Moves a timed-out run back to confirmation, unless another publish is active. Nothing is delivered again
        and nothing becomes effective. */
    method Recheck(id: nat, stateAttached: bool, runFails: bool, getFails: bool,
        transitionFails: bool) returns (awaited: Option<string>)
      requires Valid()
      modifies this`log, store
      ensures Valid() && old(log) <= log && EffectiveOf(store.db) == EffectiveOf(old(store.db))
      ensures awaited.Some? <==> (
        && stateAttached && !runFails && !getFails && !transitionFails
        && id in old(store.db).runs && old(store.db).runs[id].state.RunTimeout? && NoActive(old(store.db)))
      ensures awaited.Some? ==> (
        var n := old(store.db).runs[id].version;
        && n in old(store.db).versions && awaited.value == old(store.db).versions[n].ir
        && store.db == Transitioned(old(store.db), id, n, RunConfirming, Confirming, false))
      ensures awaited.None? ==> store.db == old(store.db)
      ensures Settled(old(store.db), delivered) ==> Settled(store.db, delivered)
    {
      hide IsRun, Sources, EffectiveOf, Inv, Settled, Transitioned, NoActive;
      awaited := None;
      if !stateAttached {
        return;
      }
      var run := store.GetPublishRun(id, runFails);
      if run.None? || !run.value.state.RunTimeout? {
        return;
      }
      ReconfirmStep(Now(), id, run.value.version);
      var v := store.GetVersion(run.value.version, getFails);
      if v.None? {
        return;
      }
      var n := run.value.version;
      SettledTransition(store.db, delivered, id, n, RunConfirming, Confirming, false);
      var ok := store.TransitionPublish(id, n, RunConfirming, Confirming, false, transitionFails);
      if ok {
        Note(Reconfirm(id, n));
        awaited := Some(v.value.ir);
      }
    }

    /** Restores a snapshot, hashes the draft and publishes it: accepted exactly when all three succeed. The new
        version carries the snapshot's files again and points back to it. */
    method RollbackPublish(n: nat, force: bool, w: Weather, hashFails: bool, a: Attempt) returns (r: PublishResult)
      requires Valid()
      modifies this, store, dir, dir.disk
      ensures Valid() && old(log) <= log && EffectiveOf(store.db) == EffectiveOf(old(store.db))
      ensures old(delivered) <= delivered
      ensures r.Accepted? <==> (
        && Restores(old(dir.disk.data), old(dir.snapshots), n, force, w)
        && w.hashed && !hashFails && !a.loadFails && Records(old(store.db), a) && Delivers(a))
      ensures Restores(old(dir.disk.data), old(dir.snapshots), n, force, w) ==>
        Sources(dir.disk.data) == old(dir.snapshots)[n]
      ensures old(Settled(store.db, delivered)) && a.UpdatesWork() ==> Settled(store.db, delivered)
      ensures r.Accepted? ==>
        r.id in store.db.runs && store.db.runs[r.id] == Run(r.n, RunConfirming) && a.compiled == Some(r.ir)
      ensures r.Accepted? ==>
        n in old(dir.snapshots) && r.n in dir.snapshots && dir.snapshots[r.n] == old(dir.snapshots)[n]
      ensures r.Accepted? ==> r.n in store.db.versions && store.db.versions[r.n].rollbackOf == n && n < r.n
      ensures var opens := && Restores(old(dir.disk.data), old(dir.snapshots), n, force, w) && w.hashed && !hashFails
                           && !a.loadFails && NoActive(old(store.db)) && !a.createFails;
              Leaves(old(store.db), store.db, opens, a, n)
    {
      hide IsRun, Sources, EffectiveOf, Inv, Settled, Recovers, Outside, Coexists, NoActive, Readable, Mixed,
        SourceForm, IsLatest, Commits, StageOf, Records, AfterCommit, Leaves, LeftUnder, Placed;
      assert dir.Valid() by { SnapshotsRestorable(Now()); }
      SnapshotsRestorable(Now());
      var ok := dir.RollbackSource(n, force, w);
      SourcesHaveForm(dir.disk.data);
      Note(Edit);
      if !ok || hashFails {
        NothingLeft(store.db, a, n);
        return Rejected;
      }
      SnapshotIsOlder(Now(), n);
      r := PublishWithBaseLocked(hash(Sources(dir.disk.data)), n, a);
      if r.Accepted? {
        assert BackLinks(Now(), r.n, store.db.versions[r.n]) by { LinksAre(Now(), r.n); }
      }
    }

    /** Publishes and confirms at once. The version is effective afterwards exactly when the publish is accepted
        and the confirmation meets no fault. */
    method Publish(a: Attempt, runFails: bool, getFails: bool, transitionFails: bool) returns (r: PublishResult,
        effective: bool)
      requires Valid()
      modifies this, store, dir, dir.disk
      ensures Valid() && old(log) <= log
      ensures r.Accepted? <==> Loads(old(dir.disk.data), hash, "", a) && Records(old(store.db), a) && Delivers(a)
      ensures effective <==> r.Accepted? && !runFails && !getFails && !transitionFails
      ensures effective ==> EffectiveOf(store.db) == {r.n} && NoActive(store.db)
      ensures !effective ==> EffectiveOf(store.db) == EffectiveOf(old(store.db))
      ensures exists mid ::
        && Leaves(old(store.db), mid, Opens(old(store.db), old(dir.disk.data), hash, "", a), a, 0)
        && store.db == if !effective || r.Rejected? then mid else Answer(mid, r.id, r.n, true)
      ensures old(Settled(store.db, delivered)) && a.UpdatesWork() ==> Settled(store.db, delivered)
    {
      hide IsRun, Sources, EffectiveOf, Inv, Settled, IsLatest, Loads, Records, NoActive, Transitioned, Leaves,
        LeftUnder, Placed, Opens;
      r := PublishWithBaseLocked("", 0, a);
      effective := false;
      if r.Accepted? {
        ConfirmedIsDone(Now(), r.id, r.n);
        effective := Confirm(r.id, r.ir, runFails, getFails, transitionFails);
      }
    }
  }

  /** The files of the snapshot are put back into the draft. */
  ghost predicate Restores(data: Area, snapshots: map<nat, Files>, n: nat, force: bool, w: Weather) {
    && n > 0 && n in snapshots && snapshots[n] != map[] && w.read && Readable(data)
    && (force || Sources(data) == map[])
    && w.staging && w.parses && Commits(data, StageOf(snapshots[n]), w.commit)
  }

  lemma SnapshotsRestorable(s: System)
    requires Inv(s)
    ensures forall m :: m in s.snapshots ==> SourceForm(s.snapshots[m]) && !Mixed(s.snapshots[m])
  {
    forall m | m in s.snapshots ensures SourceForm(s.snapshots[m]) && !Mixed(s.snapshots[m]) {
      assert Restorable(s.snapshots[m]);
    }
  }

  /** Confirming the one active run leaves none. */
  lemma ConfirmedIsDone(s: System, id: nat, n: nat)
    requires Inv(s) && id in s.db.runs && s.db.runs[id] == Run(n, RunConfirming) && n in s.db.versions
    ensures NoActive(Transitioned(s.db, id, n, RunEffective, Effective, true))
  {
  }

  /** Run id is active and linked to version n with the given IR. */
  ghost predicate AwaitsIr(db: Database, id: nat, n: nat, ir: string) {
    && id in db.runs && db.runs[id].state.Active() && db.runs[id].version == n
    && n in db.versions && db.versions[n].ir == ir
  }

  /** The effective version is as before, or the report confirmed the awaited version. */
  ghost predicate Answers(was: Database, e: Confirmation.ConfirmEvent, now: Database) {
    || EffectiveOf(now) == EffectiveOf(was)
    || (&& e.confirmed && e.observed == e.expected
        && exists id: nat, n: nat :: AwaitsIr(was, id, n, e.expected) && EffectiveOf(now) == {n})
  }

  /** The report decides the fate of a recorded version. */
  predicate Decides(v: Version, e: Confirmation.ConfirmEvent) {
    !v.state.Reserved? && (e.confirmed ==> e.observed == v.ir)
  }

  /** Run id is active, its version n is recorded with the reported IR, and the report decides it. */
  ghost predicate Heard(db: Database, id: nat, n: nat, e: Confirmation.ConfirmEvent) {
    AwaitsIr(db, id, n, e.expected) && n in db.versions && Decides(db.versions[n], e)
  }

  /** Run and version become effective, superseding the others, or time out. */
  ghost function Answer(db: Database, id: nat, n: nat, confirmed: bool): Database {
    if id !in db.runs || n !in db.versions then db
    else if confirmed then Transitioned(db, id, n, RunEffective, Effective, true)
    else Transitioned(db, id, n, RunTimeout, TimedOut, false)
  }

  /** What a decisive report leaves behind. */
  lemma AnswerMeans(s: System, id: nat, n: nat, e: Confirmation.ConfirmEvent)
    requires Inv(s) && Heard(s.db, id, n, e)
    ensures var after := Answer(s.db, id, n, e.confirmed);
            && id in after.runs && n in after.versions && NoActive(after)
            && (e.confirmed ==> after.runs[id].state.RunEffective? && EffectiveOf(after) == {n})
            && (!e.confirmed ==>
                   && after.runs[id].state.RunTimeout? && after.versions[n].state.TimedOut?
                   && EffectiveOf(after) == EffectiveOf(s.db))
  {
    hide Inv, EffectiveOf, Transitioned;
    Numbered(s);
    ConfirmStep(s, id, n);
    ExpireStep(s, id, n);
    var rs, vs := if e.confirmed then RunEffective else RunTimeout, if e.confirmed then Effective else TimedOut;
    TransitionVersions(s.db, id, n, rs, vs, e.confirmed);
    LastActiveDone(s.db, id, n, rs);
  }

  /** Once the one active run ends, none is active. */
  lemma LastActiveDone(db: Database, id: nat, n: nat, rs: RunState)
    requires OneActive(db) && id in db.runs && db.runs[id].state.Active() && !rs.Active()
    ensures NoActive(db.(runs := db.runs[id := Run(n, rs)]))
  {
  }

  lemma OnlyOneAwaits(db: Database, id: nat, n: nat, ir: string)
    requires OneActive(db) && AwaitsIr(db, id, n, ir)
    ensures forall i, m :: AwaitsIr(db, i, m, ir) ==> i == id && m == n
  {
  }

  lemma NoAnswer(db: Database, e: Confirmation.ConfirmEvent)
    ensures Answers(db, e, db)
  {
  }

  lemma SettledTransition(db: Database, delivered: set<nat>, id: nat, n: nat, rs: RunState, vs: VersionState,
      supersede: bool)
    requires id in db.runs && (db.runs[id].state.Active() || db.runs[id].state.RunTimeout?) && !rs.RunPublishing?
    requires !rs.RunValidated? && !rs.RunValidating?
    ensures Settled(db, delivered) && Transitions(db, id, n, rs) ==>
      Settled(Transitioned(db, id, n, rs, vs, supersede), delivered)
  {
    if Settled(db, delivered) && Transitions(db, id, n, rs) {
      TransitionVersions(db, id, n, rs, vs, supersede);
      assert id in Reached(db);
      var after := Transitioned(db, id, n, rs, vs, supersede);
      forall i | i in Reached(after) ensures Reached(after)[i].version in delivered {
        assert i in Reached(db);
      }
    }
  }

  lemma ConfirmStep(s: System, id: nat, n: nat)
    requires Inv(s) && id in s.db.runs && s.db.runs[id].state.Active() && s.db.runs[id].version == n
    requires n in s.db.versions
    ensures Transitions(s.db, id, n, RunEffective) <==> !s.db.versions[n].state.Reserved?
    ensures Transitions(s.db, id, n, RunEffective) ==>
      EffectiveOf(Transitioned(s.db, id, n, RunEffective, Effective, true)) == {n}
  {
    if Transitions(s.db, id, n, RunEffective) {
      TransitionVersions(s.db, id, n, RunEffective, Effective, true);
    }
  }

  lemma ExpireStep(s: System, id: nat, n: nat)
    requires Inv(s) && id in s.db.runs && s.db.runs[id].state.Active() && s.db.runs[id].version == n
    requires n in s.db.versions
    ensures Transitions(s.db, id, n, RunTimeout) <==> !s.db.versions[n].state.Reserved?
    ensures Transitions(s.db, id, n, RunTimeout) ==>
      EffectiveOf(Transitioned(s.db, id, n, RunTimeout, TimedOut, false)) == EffectiveOf(s.db)
  {
    NotYetEffective(s, id, n);
    if Transitions(s.db, id, n, RunTimeout) {
      TransitionVersions(s.db, id, n, RunTimeout, TimedOut, false);
    }
  }

  lemma ReconfirmStep(s: System, id: nat, n: nat)
    requires Inv(s) && id in s.db.runs && s.db.runs[id].state.RunTimeout? && s.db.runs[id].version == n
    ensures n in s.db.versions && (Transitions(s.db, id, n, RunConfirming) <==> NoActive(s.db))
    ensures Transitions(s.db, id, n, RunConfirming) ==>
      EffectiveOf(Transitioned(s.db, id, n, RunConfirming, Confirming, false)) == EffectiveOf(s.db)
  {
    assert Fits(s.db, s.db.runs[id]);
    NotYetEffective(s, id, n);
    if Transitions(s.db, id, n, RunConfirming) {
      TransitionVersions(s.db, id, n, RunConfirming, Confirming, false);
    }
  }

  lemma ConfirmingNotReserved(s: System, id: nat)
    requires Inv(s) && id in s.db.runs && s.db.runs[id].state.RunConfirming?
    ensures s.db.runs[id].version in s.db.versions && s.db.versions[s.db.runs[id].version].state.Confirming?
  {
    assert Fits(s.db, s.db.runs[id]);
  }

  lemma SnapshotIsOlder(s: System, n: nat)
    requires Inv(s) && n in s.snapshots
    ensures n in s.db.versions && n > 0
  {
  }

  lemma LinksAre(s: System, n: nat)
    requires Inv(s) && n in s.db.versions
    ensures BackLinks(s, n, s.db.versions[n])
  {
  }

  /** Without an active run, what reached the data plane decides. */
  lemma SettledIfReached(was: Database, before: set<nat>, now: Database, delivered: set<nat>)
    requires before <= delivered
    ensures NoActive(now) && Reached(now) == Reached(was) && Settled(was, before) ==> Settled(now, delivered)
  {
  }

  lemma SettledIfDelivered(was: Database, before: set<nat>, s: System, delivered: set<nat>, id: nat, n: nat)
    requires before <= delivered && n in delivered && Inv(s) && id in s.db.runs
    requires s.db.runs[id] == Run(n, RunConfirming)
    requires Reached(s.db) == Reached(was)[id := Run(n, RunConfirming)]
    ensures Settled(was, before) ==> Settled(s.db, delivered)
  {
  }

  lemma SameLatest(a: Database, b: Database, r: Option<nat>)
    requires a.versions == b.versions
    ensures IsLatest(a, None, r) <==> IsLatest(b, None, r)
  {
  }

  lemma RecordsAlone(db: Database, a: Attempt)
    ensures Records(db, a) ==> NoActive(db)
  {
  }

  lemma SnapshotsCaptured(s: System, n: nat)
    requires Inv(s) && n in s.db.versions
    ensures n > 0 && forall m :: m in s.snapshots ==> SourceForm(s.snapshots[m])
  {
    forall m | m in s.snapshots ensures SourceForm(s.snapshots[m]) {
      assert Restorable(s.snapshots[m]);
    }
  }

  lemma FreshLinks(was: System, now: System, n: nat, v: Version)
    requires Inv(was) && now.snapshots == was.snapshots
    requires forall m :: m in was.db.versions ==> m in now.db.versions && m < n
    requires v.parent < n && IsLatest(was.db, None, if v.parent == 0 then None else Some(v.parent))
    requires v.rollbackOf == 0 || v.rollbackOf in was.snapshots
    requires n > 0 && n !in was.db.versions
    ensures BackLinks(now, n, v) && n !in now.snapshots && (v.parent > 0 <==> HasHistory(was.db))
  {
  }

  // The single steps

  lemma Numbered(s: System)
    requires Inv(s)
    ensures NumberedRuns(s.db) && OneActive(s.db)
  {
  }

  lemma InsertedEffective(db: Database)
    requires NumberedRuns(db)
    ensures EffectiveOf(Inserted(db, Run(0, RunValidating))) == EffectiveOf(db)
    ensures Reached(Inserted(db, Run(0, RunValidating))) == Reached(db)
  {
  }

  lemma Unlinked(s: System, n: nat)
    requires Inv(s) && n > 0 && n !in s.db.versions
    ensures forall i :: i in s.db.runs ==> s.db.runs[i].version != n
  {
    forall i | i in s.db.runs ensures s.db.runs[i].version != n {
      assert Fits(s.db, s.db.runs[i]);
    }
  }

  lemma ReservedEffective(db: Database, n: nat)
    requires n !in db.versions
    ensures EffectiveOf(WithVersion(db, n, Version("", Reserved, 0, 0))) == EffectiveOf(db)
    ensures Reached(WithVersion(db, n, Version("", Reserved, 0, 0))) == Reached(db)
  {
  }

  lemma ValidatedStep(s: System, id: nat)
    requires Inv(s) && id in s.db.runs && s.db.runs[id] == Run(0, RunValidating)
    ensures id > 0 && OnlyActive(s.db, id) && MayUpdate(s.db, id, Run(0, RunValidated))
    ensures EffectiveOf(Updated(s.db, id, Run(0, RunValidated))) == EffectiveOf(s.db)
    ensures Reached(Updated(s.db, id, Run(0, RunValidated))) == Reached(s.db)
  {
  }

  /** A reserved version that no run is linked to may be linked to the validated run. */
  lemma LinkStep(s: System, id: nat, n: nat)
    requires Inv(s) && id in s.db.runs && s.db.runs[id] == Run(0, RunValidated)
    requires n > 0 && n in s.db.versions && s.db.versions[n].state.Reserved? && forall i :: i in s.db.runs ==>
      s.db.runs[i].version != n
    ensures id > 0 && OnlyActive(s.db, id) && MayUpdate(s.db, id, Run(n, RunPublishing))
    ensures EffectiveOf(Updated(s.db, id, Run(n, RunPublishing))) == EffectiveOf(s.db)
    ensures Reached(Updated(s.db, id, Run(n, RunPublishing))) == Reached(s.db)
  {
  }

  lemma RecordEffective(s: System, id: nat, n: nat, v: Version)
    requires Inv(s) && MayRecord(s, id, n, v)
    ensures n > 0 && EffectiveOf(WithVersion(s.db, n, v)) == EffectiveOf(s.db)
    ensures Reached(WithVersion(s.db, n, v)) == Reached(s.db)
  {
    NotYetEffective(s, id, n);
  }

  lemma LinksBack(s: System, n: nat)
    requires Inv(s) && n in s.db.versions
    ensures forall t :: BackLinks(s, n, s.db.versions[n].(state := t))
  {
    assert BackLinks(s, n, s.db.versions[n]);
  }

  lemma RewriteStep(s: System, id: nat, n: nat)
    requires Inv(s) && id in s.db.runs && s.db.runs[id] == Run(n, RunPublishing)
    ensures id > 0 && OnlyActive(s.db, id) && Updated(s.db, id, Run(n, RunPublishing)) == s.db
  {
  }

  lemma ConfirmingStep(s: System, id: nat, n: nat)
    requires Inv(s) && id in s.db.runs && s.db.runs[id] == Run(n, RunPublishing) && n in s.db.versions
    requires s.db.versions[n].state.Confirming?
    ensures id > 0 && OnlyActive(s.db, id) && MayUpdate(s.db, id, Run(n, RunConfirming))
    ensures EffectiveOf(Updated(s.db, id, Run(n, RunConfirming))) == EffectiveOf(s.db)
    ensures Reached(Updated(s.db, id, Run(n, RunConfirming))) == Reached(s.db)[id := Run(n, RunConfirming)]
  {
  }

  // Any sequence of calls

  datatype Call =
    | DoEdit(area: Area)
    | DoPublish(baseHash: string, a: Attempt)
    | DoPublishNow(a: Attempt, runFails: bool, getFail: bool, transitionFails: bool)
    | DoRollback(n: nat, force: bool, w: Weather, hashFails: bool, a: Attempt)
    | DoEvent(e: Confirmation.ConfirmEvent, activeFails: bool, getFails: set<nat>, transitionFails: bool)
    | DoConfirm(id: nat, observed: string, runFails: bool, getFail: bool, transitionFails: bool)
    | DoRecheck(id: nat, stateAttached: bool, runFails: bool, getFail: bool, transitionFails: bool)
  {
    predicate UpdatesWork() { (DoPublish? || DoPublishNow? || DoRollback?) ==> a.UpdatesWork() }
  }

  method Perform(p: PublisherObject, call: Call)
    requires p.Valid()
    modifies p, p.store, p.dir, p.dir.disk
    ensures p.Valid() && old(p.log) <= p.log
    ensures old(Settled(p.store.db, p.delivered)) && call.UpdatesWork() ==> Settled(p.store.db, p.delivered)
  {
    hide IsRun, Sources, EffectiveOf, Inv, Settled, Answers, NoActive, SourceForm, Records, Loads, Restores,
      Transitioned, Answer, Heard, IsLatest;
    match call {
      case DoEdit(area) =>
        p.dir.disk.data := area;
        SourcesHaveForm(area);
        p.Note(Edit);
      case DoPublish(baseHash, a) => var _ := p.PublishWithBaseLocked(baseHash, 0, a);
      case DoPublishNow(a, runFails, getFail, transitionFails) =>
        var _, _ := p.Publish(a, runFails, getFail, transitionFails);
      case DoRollback(n, force, w, hashFails, a) => var _ := p.RollbackPublish(n, force, w, hashFails, a);
      case DoEvent(e, activeFails, getFails, transitionFails) =>
        p.HandleConfirmEvent(e, activeFails, getFails, transitionFails);
      case DoConfirm(id, observed, runFails, getFail, transitionFails) =>
        var _ := p.Confirm(id, observed, runFails, getFail, transitionFails);
      case DoRecheck(id, attached, runFails, getFail, transitionFails) =>
        var _ := p.Recheck(id, attached, runFails, getFail, transitionFails);
    }
  }

  /** Whatever is asked of a publisher, in whatever order and with whatever failures, its states form a run of the
      transition system; while the run-row updates succeed, whoever takes the lock finds it settled. */
  method Serve(p: PublisherObject, calls: seq<Call>)
    requires p.Valid()
    modifies p, p.store, p.dir, p.dir.disk
    ensures p.Valid() && old(p.log) <= p.log
    ensures old(Settled(p.store.db, p.delivered)) && (forall c :: c in calls ==> c.UpdatesWork()) ==>
      Settled(p.store.db, p.delivered)
  {
    hide Settled, IsRun, Inv, Sources;
    for i := 0 to |calls|
      invariant p.Valid() && old(p.log) <= p.log
      invariant old(Settled(p.store.db, p.delivered)) && (forall c :: c in calls ==> c.UpdatesWork()) ==>
        Settled(p.store.db, p.delivered)
    {
      assert calls[i] in calls;
      Perform(p, calls[i]);
    }
  }
}
