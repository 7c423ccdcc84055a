/** Replacing the filesystem draft: the old entries are moved to a backup, the staged ones are moved in,
    and a failure undoes what was done. Every stat and every move may fail. */
module DraftReplace {
  import opened Text
  import Sorting

  datatype Entry = Directory(files: map<string, string>) | File(content: string)

  /** The entries of the data directory: config.d, native.yaml and the rest, which no replacement touches. */
  datatype Name = ConfigD | NativeYaml | Other(path: string)

  type Area = map<Name, Entry>

  const TARGETS := [ConfigD, NativeYaml]

  datatype Rename = Renamed | Refused | CrossDevice

  /** What one call of moveDraftPath meets: its rename, and, across devices, a copy that may fail after copying
      only the files in copied, and a removal of the source that may fail with only the files in kept left. */
  datatype Move = Move(rename: Rename, copyFails: bool, copied: set<string>, removeFails: bool, kept: set<string>)
  {
    predicate Succeeds() { rename.Renamed? || (rename.CrossDevice? && !copyFails && !removeFails) }

    /** The source is copied but only partly removed. */
    predicate Tears() { rename.CrossDevice? && !copyFails && removeFails }
  }

  const SMOOTH := Move(Renamed, false, {}, false, {})

  /** One outcome for each of the two targets. */
  datatype Each<T> = Each(config: T, native: T)
  {
    function At(name: Name): T { if name.ConfigD? then config else native }
  }

  datatype Faults = Faults(
    noBackupDir: bool, statOldFails: Each<bool>, backup: Each<Move>,
    statStageFails: Each<bool>, install: Each<Move>, restore: Each<Move>)

  const CALM := Faults(
    false, Each(false, false), Each(SMOOTH, SMOOTH), Each(false, false), Each(SMOOTH, SMOOTH), Each(SMOOTH, SMOOTH))

  datatype Outcome = Replaced | Failed

  /** What is left of an entry whose removal stopped halfway. */
  function Residue(e: Entry, kept: set<string>): Entry {
    match e
    case Directory(files) => Directory(map n | n in files && n in kept :: files[n])
    case File(_) => e
  }

  /** A move that, if it fails, leaves its source as it was. */
  predicate Intact(e: Entry, m: Move) {
    m.Tears() ==> Residue(e, m.kept) == e
  }

  function SourceAfter(src: Area, name: Name, m: Move): Area
    requires name in src
  {
    if m.Succeeds() then src - {name} else if m.Tears() then src[name := Residue(src[name], m.kept)] else src
  }

  /** Renames, or copies and removes when the rename crosses devices; whatever fails, the target is cleaned up. */
  method MoveDraftPath(src: Area, dst: Area, name: Name, m: Move) returns (src': Area, dst': Area, ok: bool)
    requires name in src && name !in dst
    ensures ok <==> m.Succeeds()
    ensures src' == SourceAfter(src, name, m)
    ensures ok ==> src' == src - {name}
    ensures dst' == if ok then dst[name := src[name]] else dst
  {
    src', dst', ok := src, dst, false;
    if m.rename.Renamed? {
      src', dst', ok := src - {name}, dst[name := src[name]], true;
      return;
    }
    if !m.rename.CrossDevice? {
      return;
    }
    dst' := dst'[name := if m.copyFails then Residue(src[name], m.copied) else src[name]];
    if m.copyFails {
      dst' := dst' - {name};
      return;
    }
    src' := if m.removeFails then src'[name := Residue(src[name], m.kept)] else src' - {name};
    if m.removeFails {
      dst' := dst' - {name};
      return;
    }
    ok := true;
  }

  function Set(names: seq<Name>): set<Name> {
    set n | n in names
  }

  function Only(m: Area, names: seq<Name>): Area {
    map n | n in m && n in names :: m[n]
  }

  function Present(m: Area, names: seq<Name>): (out: seq<Name>)
    ensures forall n :: n in out <==> n in names && n in m
  {
    if names == [] then []
    else
      var last := names[|names| - 1];
      assert names == names[..|names| - 1] + [last];
      Present(m, names[..|names| - 1]) + if last in m then [last] else []
  }

  /** The old draft comes back exactly when the failure did not follow the loss of an entry: no stat error on
      native.yaml after config.d was moved away, no backup move that emptied its source halfway, and restoring
      moves that succeed. */
  predicate Recovers(old': Area, f: Faults) {
    if f.noBackupDir || (f.statOldFails.config) then true
    else if ConfigD in old' && !f.backup.config.Succeeds() then Intact(old'[ConfigD], f.backup.config)
    else if f.statOldFails.native then ConfigD !in old'
    else if NativeYaml in old' && !f.backup.native.Succeeds() then
      Intact(old'[NativeYaml], f.backup.native) && (ConfigD in old' ==> f.restore.config.Succeeds())
    else (ConfigD in old' ==> f.restore.config.Succeeds()) && (NativeYaml in old' ==> f.restore.native.Succeeds())
  }

  class Disk {
    var data: Area
    var stage: Area
    var backup: Area

    constructor (data: Area)
      ensures this.data == data && stage == map[] && backup == map[]
    {
      this.data, stage, backup := data, map[], map[];
    }

    /** restoreDraftBackup: the list is sorted already, and failures are ignored. */
    method Restore(moved: seq<Name>, f: Faults)
      requires Sorting.Distinct(moved)
      requires forall n :: n in moved ==> n in backup && n !in data
      modifies this
      ensures stage == old(stage)
      ensures data.Keys == old(data).Keys + set n | n in moved && f.restore.At(n).Succeeds()
      ensures forall n :: n in data ==> data[n] == if n in moved then old(backup)[n] else old(data)[n]
    {
      for i := 0 to |moved|
        invariant stage == old(stage)
        invariant data.Keys == old(data).Keys + set n | n in moved[..i] && f.restore.At(n).Succeeds()
        invariant forall n :: n in data ==> data[n] == if n in moved then old(backup)[n] else old(data)[n]
        invariant forall k :: i <= k < |moved| ==> moved[k] in backup && backup[moved[k]] == old(backup)[moved[k]]
      {
        assert moved[i] in moved && moved[i] !in moved[..i] && moved[..i + 1] == moved[..i] + [moved[i]];
        var ok;
        backup, data, ok := MoveDraftPath(backup, data, moved[i], f.restore.At(moved[i]));
      }
      assert moved[..|moved|] == moved;
    }

    /** Moves one old entry away, undoing the earlier moves if that fails. */
    method BackUpOne(name: Name, moved: seq<Name>, f: Faults, ghost was: Area,
        ghost done: seq<Name>) returns (now: seq<Name>, ok: bool)
      requires name !in done && Sorting.Distinct(moved) && moved == Present(was, done)
      requires data == was - Set(done) && backup == Only(was, done)
      modifies this
      ensures stage == old(stage)
      ensures ok <==> !BackupFails(was, name, f)
      ensures ok ==> Sorting.Distinct(now) && now == Present(was, done + [name])
      ensures ok ==> data == was - Set(done + [name]) && backup == Only(was, done + [name])
      ensures !ok ==> data == AfterFailedBackup(was, done, name, f)
    {
      hide Only, Present, AfterFailedBackup, SourceAfter, Set;
      now, ok := moved, true;
      OneMore(was, done, name);
      OneLess(was, done, name);
      if f.statOldFails.At(name) {
        StatStops(was, done, name, f);
        ok := false;
        return;
      }
      if name in data {
        data, backup, ok := MoveDraftPath(data, backup, name, f.backup.At(name));
        if !ok {
          MovedAreBackedUp(was, done, name, f);
          ghost var before := data;
          Restore(moved, f);
          MoveStops(was, done, name, f, before, data);
          return;
        }
        now := moved + [name];
      }
    }

    method BackUp(f: Faults) returns (moved: seq<Name>, ok: bool)
      requires backup == map[]
      modifies this
      ensures stage == old(stage)
      ensures ok <==> FirstFailure(old(data), f).None?
      ensures ok ==> Sorting.Distinct(moved) && moved == Present(old(data), TARGETS)
      ensures ok ==> data == old(data) - Set(TARGETS) && backup == Only(old(data), TARGETS)
      ensures !ok ==>
        var i := FirstFailure(old(data), f).value; data == AfterFailedBackup(old(data), TARGETS[..i], TARGETS[i], f)
    {
      hide AfterFailedBackup, BackupFails, Only, Present, Set;
      moved, ok := [], true;
      NothingYet(data);
      for i := 0 to |TARGETS|
        invariant stage == old(stage) && ok
        invariant Sorting.Distinct(moved) && moved == Present(old(data), TARGETS[..i])
        invariant data == old(data) - Set(TARGETS[..i])
        invariant backup == Only(old(data), TARGETS[..i])
        invariant forall k :: 0 <= k < i ==> !BackupFails(old(data), TARGETS[k], f)
      {
        assert TARGETS[..i + 1] == TARGETS[..i] + [TARGETS[i]];
        moved, ok := BackUpOne(TARGETS[i], moved, f, old(data), TARGETS[..i]);
        if !ok {
          return;
        }
      }
      assert TARGETS[..|TARGETS|] == TARGETS;
    }

    /** rollbackDraftInstall */
    method UndoInstall(installed: seq<Name>, moved: seq<Name>, f: Faults, ghost was: Area)
      requires Sorting.Distinct(moved) && moved == Present(was, TARGETS) && backup == Only(was, TARGETS)
      requires data - Set(installed) == was - Set(TARGETS)
      modifies this
      ensures data == AfterFailedInstall(was, f)
    {
      hide Only, Present;
      data := data - Set(installed);
      PresentAreBackedUp(was);
      Restore(moved, f);
      InstallStops(was, f, data);
    }

    method Install(moved: seq<Name>, f: Faults, ghost was: Area) returns (ok: bool)
      requires Sorting.Distinct(moved) && moved == Present(was, TARGETS) && backup == Only(was, TARGETS)
      requires data == was - Set(TARGETS)
      modifies this
      ensures ok <==> forall k :: 0 <= k < |TARGETS| ==> !InstallFails(old(stage), TARGETS[k], f)
      ensures ok ==> data == (was - Set(TARGETS)) + Only(old(stage), TARGETS)
      ensures !ok ==> data == AfterFailedInstall(was, f)
    {
      hide Only, Present, AfterFailedInstall, Set;
      var installed := [];
      ok := true;
      NothingYet(stage);
      assert data + map[] == data;
      for i := 0 to |TARGETS|
        invariant ok && backup == Only(was, TARGETS)
        invariant forall k :: i <= k < |TARGETS| ==> (TARGETS[k] in stage <==> TARGETS[k] in old(stage))
        invariant forall k :: i <= k < |TARGETS| && TARGETS[k] in stage ==> stage[TARGETS[k]] == old(stage)[TARGETS[k]]
        invariant installed == Present(old(stage), TARGETS[..i])
        invariant data == (was - Set(TARGETS)) + Only(old(stage), TARGETS[..i])
        invariant forall k :: 0 <= k < i ==> !InstallFails(old(stage), TARGETS[k], f)
      {
        var name := TARGETS[i];
        assert TARGETS[..i + 1] == TARGETS[..i] + [name];
        OneMore(old(stage), TARGETS[..i], name);
        Installs(was, old(stage), i);
        Uninstalls(was, old(stage), i);
        if f.statStageFails.At(name) {
          UndoInstall(installed, moved, f, was);
          ok := false;
          return;
        }
        if name in stage {
          stage, data, ok := MoveDraftPath(stage, data, name, f.install.At(name));
          if !ok {
            UndoInstall(installed, moved, f, was);
            return;
          }
          installed := installed + [name];
        }
      }
      assert TARGETS[..|TARGETS|] == TARGETS;
    }

    /** commitDraftStage */
    method Commit(f: Faults) returns (r: Outcome)
      requires backup == map[]
      modifies this
      ensures r.Replaced? <==> Commits(old(data), old(stage), f)
      ensures data == AfterCommit(old(data), old(stage), f)
      ensures r.Replaced? ==> data == (old(data) - Set(TARGETS)) + Only(old(stage), TARGETS)
      ensures r.Failed? ==> (data == old(data) <==> Recovers(old(data), f))
      ensures !Coexists(old(data)) && !Coexists(old(stage)) ==> !Coexists(data)
      ensures Outside(data) == Outside(old(data))
    {
      hide Only, Present, Set, AfterFailedInstall, AfterFailedBackup, Outside, Coexists, Recovers, FirstFailure;
      ghost var was, staged := data, stage;
      if !Commits(was, staged, f) {
        FailedCommit(was, staged, f);
      }
      if f.noBackupDir {
        return Failed;
      }
      var moved, ok := BackUp(f);
      if !ok {
        return Failed;
      }
      ok := Install(moved, f, was);
      if !ok {
        return Failed;
      }
      ReplacedOutcome(was, staged);
      return Replaced;
    }
  }

  lemma OneMore(was: Area, done: seq<Name>, name: Name)
    requires name !in done
    ensures Present(was, done + [name]) == Present(was, done) + if name in was then [name] else []
    ensures name in was ==> Only(was, done)[name := was[name]] == Only(was, done + [name])
    ensures name !in was ==> Only(was, done) == Only(was, done + [name])
    ensures name !in Only(was, done) && name !in Present(was, done)
  {
    hide Only;
    assert (done + [name])[..|done|] == done;
    OnlyOneMore(was, done, name);
  }

  lemma OnlyOneMore(was: Area, done: seq<Name>, name: Name)
    requires name !in done
    ensures name in was ==> Only(was, done)[name := was[name]] == Only(was, done + [name])
    ensures name !in was ==> Only(was, done) == Only(was, done + [name])
    ensures name !in Only(was, done)
  {
    assert forall n :: n in done + [name] <==> n in done || n == name;
  }

  lemma OneLess(was: Area, done: seq<Name>, name: Name)
    requires name !in done
    ensures (was - Set(done)) - {name} == was - Set(done + [name])
    ensures name in was ==> name in was - Set(done) && (was - Set(done))[name] == was[name]
    ensures name !in was ==> name !in was - Set(done) && was - Set(done) == was - Set(done + [name])
  {
    assert Set(done + [name]) == Set(done) + {name};
  }

  lemma MovedAreBackedUp(was: Area, done: seq<Name>, name: Name, f: Faults)
    requires name !in done && name in was - Set(done)
    requires !f.backup.At(name).Succeeds()
    ensures forall n :: n in Present(was, done) ==>
      n in Only(was, done) && n !in SourceAfter(was - Set(done), name, f.backup.At(name))
    ensures SourceAfter(was - Set(done), name, f.backup.At(name)).Keys == (was - Set(done)).Keys
  {
  }

  lemma StatStops(was: Area, done: seq<Name>, name: Name, f: Faults)
    requires f.statOldFails.At(name) && name !in done
    ensures AfterFailedBackup(was, done, name, f) == was - Set(done)
  {
  }

  lemma MoveStops(was: Area, done: seq<Name>, name: Name, f: Faults, before: Area, after: Area)
    requires !f.statOldFails.At(name) && name in was && name !in done && !f.backup.At(name).Succeeds()
    requires name in was - Set(done)
    requires before == SourceAfter(was - Set(done), name, f.backup.At(name))
    requires after.Keys == before.Keys + set n | n in Present(was, done) && f.restore.At(n).Succeeds()
    requires forall n :: n in after ==> after[n] == if n in Present(was, done) then Only(was, done)[n] else before[n]
    ensures after == AfterFailedBackup(was, done, name, f)
  {
    var want := AfterFailedBackup(was, done, name, f);
    forall n ensures n in after <==> n in want {
    }
    forall n | n in after ensures after[n] == want[n] {
    }
  }

  lemma NothingYet(m: Area)
    ensures Present(m, TARGETS[..0]) == [] && Only(m, TARGETS[..0]) == map[]
    ensures m - Set(TARGETS[..0]) == m
  {
  }

  predicate BackupFails(was: Area, name: Name, f: Faults) {
    f.statOldFails.At(name) || (name in was && !f.backup.At(name).Succeeds())
  }

  function FirstFailure(was: Area, f: Faults): (r: Option<nat>)
    ensures r.Some? ==> r.value < |TARGETS|
  {
    if BackupFails(was, TARGETS[0], f) then Some(0) else if BackupFails(was, TARGETS[1], f) then Some(1) else None
  }

  /** The data directory after the backup of name failed, the entries of done having been moved before. */
  function AfterFailedBackup(was: Area, done: seq<Name>, name: Name, f: Faults): Area
    requires BackupFails(was, name, f) && name !in done
  {
    var rest := was - Set(done);
    if f.statOldFails.At(name) then rest
    else
      SourceAfter(rest, name, f.backup.At(name))
      + map n | n in was && n in done && f.restore.At(n).Succeeds() :: was[n]
  }

  /** Every entry of a is an entry of b, or what is left of one. */
  ghost predicate Below(a: Area, b: Area) {
    forall n :: n in a ==> n in b && (a[n] == b[n] || exists kept :: a[n] == Residue(b[n], kept))
  }

  // Installing

  predicate InstallFails(staged: Area, name: Name, f: Faults) {
    f.statStageFails.At(name) || (name in staged && !f.install.At(name).Succeeds())
  }

  ghost predicate Commits(was: Area, staged: Area, f: Faults) {
    && !f.noBackupDir && FirstFailure(was, f).None?
    && forall k :: 0 <= k < |TARGETS| ==> !InstallFails(staged, TARGETS[k], f)
  }

  lemma CalmCommits(was: Area, staged: Area)
    ensures Commits(was, staged, CALM)
  {
  }

  /** What a commit leaves in the data directory: nothing done, a failed backup, the staged entries, or a failed
      installation. */
  ghost function AfterCommit(was: Area, staged: Area, f: Faults): Area {
    if f.noBackupDir then was
    else match FirstFailure(was, f)
      case Some(i) => AfterFailedBackup(was, TARGETS[..i], TARGETS[i], f)
      case None =>
        if Commits(was, staged, f) then (was - Set(TARGETS)) + Only(staged, TARGETS) else AfterFailedInstall(was, f)
  }

  /** A commit that fails brings the old draft back exactly when it recovers, and never touches anything else. */
  lemma FailedCommit(was: Area, staged: Area, f: Faults)
    requires !Commits(was, staged, f)
    ensures AfterCommit(was, staged, f) == was <==> Recovers(was, f)
    ensures Outside(AfterCommit(was, staged, f)) == Outside(was)
    ensures !Coexists(was) ==> !Coexists(AfterCommit(was, staged, f))
  {
    hide Recovers, Outside, Coexists, AfterFailedInstall, AfterFailedBackup;
    if f.noBackupDir {
      RecoversAtOnce(was, f);
    } else if FirstFailure(was, f).Some? {
      BackupOutcome(was, f);
    } else {
      InstallOutcome(was, f);
    }
  }

  function AfterFailedInstall(was: Area, f: Faults): Area {
    (was - Set(TARGETS)) + map n | n in was && n in TARGETS && f.restore.At(n).Succeeds() :: was[n]
  }

  lemma PresentAreBackedUp(was: Area)
    ensures forall n :: n in Present(was, TARGETS) ==> n in Only(was, TARGETS) && n !in was - Set(TARGETS)
  {
  }

  lemma InstallStops(was: Area, f: Faults, after: Area)
    requires after.Keys == (was - Set(TARGETS)).Keys + set n | n in Present(was, TARGETS) && f.restore.At(n).Succeeds()
    requires forall n :: n in after ==>
      after[n] == if n in Present(was, TARGETS) then Only(was, TARGETS)[n] else (was - Set(TARGETS))[n]
    ensures after == AfterFailedInstall(was, f)
  {
    var want := AfterFailedInstall(was, f);
    forall n ensures n in after <==> n in want {
    }
    forall n | n in after ensures after[n] == want[n] {
    }
  }

  lemma Installs(was: Area, staged: Area, i: nat)
    requires i < |TARGETS|
    ensures var data := (was - Set(TARGETS)) + Only(staged, TARGETS[..i]);
            && TARGETS[i] !in data
            && (TARGETS[i] in staged ==>
                   data[TARGETS[i] := staged[TARGETS[i]]] == (was - Set(TARGETS)) + Only(staged, TARGETS[..i + 1]))
            && (TARGETS[i] !in staged ==> data == (was - Set(TARGETS)) + Only(staged, TARGETS[..i + 1]))
  {
    hide Only, Present;
    var name, done := TARGETS[i], TARGETS[..i];
    assert TARGETS[..i + 1] == done + [name];
    OneMore(staged, done, name);
  }

  lemma Uninstalls(was: Area, staged: Area, i: nat)
    requires i < |TARGETS|
    ensures ((was - Set(TARGETS)) + Only(staged, TARGETS[..i])) - Set(Present(staged, TARGETS[..i]))
            == was - Set(TARGETS)
  {
    var done := TARGETS[..i];
    var base, extra := was - Set(TARGETS), Only(staged, done);
    assert forall n :: n in done ==> n in TARGETS;
    assert Set(Present(staged, done)) == extra.Keys;
    assert base.Keys !! extra.Keys;
  }

  // The outcomes

  /** native.yaml beside a configuration file. */
  predicate Coexists(a: Area) {
    NativeYaml in a && ConfigD in a && a[ConfigD].Directory? && a[ConfigD].files != map[]
  }

  function Outside(a: Area): Area {
    a - Set(TARGETS)
  }

  lemma BelowKeepsApart(a: Area, b: Area)
    requires Below(a, b) && !Coexists(b)
    ensures !Coexists(a)
  {
  }

  lemma RecoversAtOnce(was: Area, f: Faults)
    requires f.noBackupDir
    ensures Recovers(was, f)
  {
  }

  lemma FirstTarget(was: Area, f: Faults)
    requires !f.noBackupDir && BackupFails(was, ConfigD, f)
    ensures AfterFailedBackup(was, [], ConfigD, f) == was <==> Recovers(was, f)
    ensures Below(AfterFailedBackup(was, [], ConfigD, f), was)
    ensures Outside(AfterFailedBackup(was, [], ConfigD, f)) == Outside(was)
  {
    var after := AfterFailedBackup(was, [], ConfigD, f);
    assert was - Set([]) == was;
    if f.statOldFails.config {
      assert after == was;
    } else {
      assert after == SourceAfter(was, ConfigD, f.backup.config);
      assert after == was[ConfigD := after[ConfigD]];
      assert Outside(after) == Outside(was);
    }
  }

  lemma SecondTarget(was: Area, f: Faults)
    requires !f.noBackupDir && !BackupFails(was, ConfigD, f) && BackupFails(was, NativeYaml, f)
    ensures AfterFailedBackup(was, [ConfigD], NativeYaml, f) == was <==> Recovers(was, f)
    ensures Below(AfterFailedBackup(was, [ConfigD], NativeYaml, f), was)
    ensures Outside(AfterFailedBackup(was, [ConfigD], NativeYaml, f)) == Outside(was)
  {
    var after := AfterFailedBackup(was, [ConfigD], NativeYaml, f);
    assert Set([ConfigD]) == {ConfigD};
    forall n: Name | n.Other? ensures (n in after <==> n in was) && (n in was ==> after[n] == was[n]) {
    }
    assert Outside(after) == Outside(was);
    assert NativeYaml in was ==> NativeYaml in after;
    assert ConfigD in after <==> (ConfigD in was && !f.statOldFails.native && f.restore.config.Succeeds());
    assert ConfigD in after ==> after[ConfigD] == was[ConfigD];
    assert NativeYaml in was ==> after[NativeYaml] == was[NativeYaml] || f.backup.native.Tears();
    if Recovers(was, f) {
      forall n ensures (n in after <==> n in was) && (n in was ==> after[n] == was[n]) {
      }
    }
  }

  lemma BackupOutcome(was: Area, f: Faults)
    requires !f.noBackupDir && FirstFailure(was, f).Some?
    ensures var i := FirstFailure(was, f).value;
            var after := AfterFailedBackup(was, TARGETS[..i], TARGETS[i], f);
            && (after == was <==> Recovers(was, f)) && Outside(after) == Outside(was)
            && (!Coexists(was) ==> !Coexists(after))
  {
    hide AfterFailedBackup, Recovers, Outside, Coexists, Below;
    var i := FirstFailure(was, f).value;
    assert TARGETS[..0] == [] && TARGETS[..1] == [ConfigD];
    if i == 0 {
      FirstTarget(was, f);
    } else {
      SecondTarget(was, f);
    }
    if !Coexists(was) {
      BelowKeepsApart(AfterFailedBackup(was, TARGETS[..i], TARGETS[i], f), was);
    }
  }

  lemma InstallOutcome(was: Area, f: Faults)
    requires !f.noBackupDir && FirstFailure(was, f).None?
    ensures var after := AfterFailedInstall(was, f);
            && (after == was <==> Recovers(was, f)) && Outside(after) == Outside(was)
            && (!Coexists(was) ==> !Coexists(after))
  {
    var after := AfterFailedInstall(was, f);
    forall n ensures n in after ==> n in was && after[n] == was[n] {
    }
    assert Outside(after) == Outside(was);
    assert ConfigD in after <==> ConfigD in was && f.restore.config.Succeeds();
    assert NativeYaml in after <==> NativeYaml in was && f.restore.native.Succeeds();
    if Recovers(was, f) {
      forall n ensures n in was ==> n in after {
      }
    }
  }

  lemma ReplacedOutcome(was: Area, staged: Area)
    ensures var after := (was - Set(TARGETS)) + Only(staged, TARGETS);
            Outside(after) == Outside(was) && (!Coexists(staged) ==> !Coexists(after))
  {
    var after := (was - Set(TARGETS)) + Only(staged, TARGETS);
    assert Outside(after) == Outside(was);
    forall n | n in TARGETS && n in after ensures n in staged && after[n] == staged[n] {
    }
    assert ConfigD in TARGETS && NativeYaml in TARGETS;
  }

  /** A stat error on native.yaml after config.d was moved away returns without restoring it, and the backup
      is then deleted: the whole old draft is gone although nothing was installed. */
  lemma StatErrorLosesDraft() returns (was: Area, f: Faults)
    ensures !Coexists(was) && ConfigD in was && was[ConfigD].Directory? && was[ConfigD].files != map[]
    ensures f.backup == Each(SMOOTH, SMOOTH) && f.install == Each(SMOOTH, SMOOTH) && f.restore == Each(SMOOTH, SMOOTH)
    ensures FirstFailure(was, f) == Some(1) && !Recovers(was, f)
    ensures ConfigD !in AfterFailedBackup(was, [ConfigD], NativeYaml, f)
  {
    was := map[ConfigD := Directory(map["gateway.yaml" := "kind: Gateway"])];
    f := Faults(false, Each(false, true), Each(SMOOTH, SMOOTH), Each(false, false), Each(SMOOTH, SMOOTH), Each(SMOOTH,
        SMOOTH));
    assert ConfigD in Set([ConfigD]);
    assert "gateway.yaml" in was[ConfigD].files;
  }
}
