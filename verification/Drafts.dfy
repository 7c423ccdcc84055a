/** Drafts, their replacement, snapshots of them and the way back. */
module Drafts {
  import opened Text
  import opened SourcePaths
  import opened DraftReplace

  /** A source path relative to the data directory, by its place. */
  datatype Path = InConfigD(file: string) | AtNative | Elsewhere(text: string)

  type Files = map<Path, string>

  datatype SourceFile = SourceFile(path: string, content: string)

  /** A YAML file directly below a directory. */
  predicate Yaml(file: string) {
    '/' !in file && YamlExt(file)
  }

  function Parse(p: string): Path {
    if p == "native.yaml" then AtNative
    else if "config.d/" <= p && '/' !in p[9..] then InConfigD(p[9..])
    else Elsewhere(p)
  }

  function Render(p: Path): string {
    match p
    case InConfigD(file) => "config.d/" + file
    case AtNative => "native.yaml"
    case Elsewhere(text) => text
  }

  /** The source files of a data directory: the YAML files of config.d, and native.yaml. */
  function Sources(a: Area): Files {
    var config := if ConfigD in a && a[ConfigD].Directory? then a[ConfigD].files else map[];
    (map f | f in config && Yaml(f) :: InConfigD(f) := config[f])
    + if NativeYaml in a && a[NativeYaml].File? then map[AtNative := a[NativeYaml].content] else map[]
  }

  /** Reading the sources fails on a config.d that is a file or a native.yaml that is a directory. */
  predicate Readable(a: Area) {
    (ConfigD in a ==> a[ConfigD].Directory?) && (NativeYaml in a ==> a[NativeYaml].File?)
  }

  /** native.yaml beside a YAML file of config.d: loading such a draft is refused. */
  predicate Mixed(fs: Files) {
    AtNative in fs && exists p :: p in fs && p.InConfigD?
  }

  /** The form of every source set. */
  ghost predicate SourceForm(fs: Files) {
    forall p :: p in fs ==> p.AtNative? || (p.InConfigD? && Yaml(p.file))
  }

  lemma SourcesHaveForm(a: Area)
    ensures SourceForm(Sources(a))
  {
  }

  lemma ParseRender(fs: Files, p: Path)
    requires SourceForm(fs) && p in fs
    ensures Parse(Render(p)) == p
  {
    if p.InConfigD? {
      assert Render(p)[..9] == "config.d/" && Render(p)[9..] == p.file;
      assert Render(p)[0] == 'c';
    }
  }

  // Source sets

  ghost predicate UniquePaths(files: seq<SourceFile>) {
    forall i, j :: 0 <= i < j < |files| ==> files[i].path != files[j].path
  }

  ghost predicate SourceSetOk(mode: DraftMode, files: seq<SourceFile>) {
    && (mode.Native? ==> |files| == 1) && UniquePaths(files)
    && forall i :: 0 <= i < |files| ==> PathOk(mode, files[i].path)
  }

  method ValidateSourceSet(mode: DraftMode, files: seq<SourceFile>) returns (ok: bool)
    ensures ok <==> SourceSetOk(mode, files)
  {
    hide Clean, Dir, YamlExt;
    if mode.Native? && |files| != 1 {
      return false;
    }
    var seen := {};
    for i := 0 to |files|
      invariant forall k :: 0 <= k < i ==> files[k].path in seen
      invariant forall p :: p in seen ==> exists k :: 0 <= k < i && files[k].path == p
      invariant forall k, m :: 0 <= k < m < i ==> files[k].path != files[m].path
      invariant forall k :: 0 <= k < i ==> PathOk(mode, files[k].path)
    {
      var p := files[i].path;
      var clean := Clean(p);
      if p == "" || clean != p || IsAbs(p) || clean == ".." || "../" <= clean {
        return false;
      }
      if clean in seen {
        return false;
      }
      seen := seen + {clean};
      var fits := match mode
        case Native => clean == "native.yaml"
        case Abstract => Dir(clean) == "config.d" && YamlExt(clean);
      if !fits {
        return false;
      }
    }
    return true;
  }

  function FilesOf(files: seq<SourceFile>): Files {
    if files == [] then map[]
    else var last := files[|files| - 1]; FilesOf(files[..|files| - 1])[Parse(last.path) := last.content]
  }

  function ConfigFiles(fs: Files): map<string, string> {
    map p | p in fs && p.InConfigD? :: p.file := fs[p]
  }

  /** The staging directory: config.d always exists, native.yaml when it is among the files. */
  function StageOf(fs: Files): Area {
    map[ConfigD := Directory(ConfigFiles(fs))] + if AtNative in fs then map[NativeYaml := File(fs[AtNative])] else map[]
  }

  lemma ParsedIsOk(mode: DraftMode, p: string)
    requires PathOk(mode, p)
    ensures match mode case Native => Parse(p) == AtNative case Abstract => Parse(p).InConfigD? && Yaml(Parse(p).file)
  {
    hide PathOk, YamlExt;
    AcceptedPaths(mode, p);
    if mode.Abstract? {
      var f :| p == "config.d/" + f && '/' !in f && YamlExt(f);
      assert p[..9] == "config.d/" && p[9..] == f && p[0] == 'c';
    }
  }

  lemma {:induction false} PathsAre(files: seq<SourceFile>, p: Path)
    requires p in FilesOf(files)
    ensures exists i :: 0 <= i < |files| && Parse(files[i].path) == p
  {
    hide Parse;
    var rest := files[..|files| - 1];
    if p in FilesOf(rest) {
      PathsAre(rest, p);
      var i :| 0 <= i < |rest| && Parse(rest[i].path) == p;
      assert Parse(files[i].path) == p;
    } else {
      assert Parse(files[|files| - 1].path) == p;
    }
  }

  /** The files of an accepted source set: native.yaml alone, or YAML files of config.d. */
  lemma AcceptedFiles(mode: DraftMode, files: seq<SourceFile>, p: Path)
    requires SourceSetOk(mode, files) && p in FilesOf(files)
    ensures match mode case Native => p == AtNative case Abstract => p.InConfigD? && Yaml(p.file)
  {
    hide Parse, PathOk, Yaml;
    PathsAre(files, p);
    var i :| 0 <= i < |files| && Parse(files[i].path) == p;
    ParsedIsOk(mode, files[i].path);
  }

  /** One kind of files only, and each a YAML file. */
  lemma AcceptedForm(mode: DraftMode, files: seq<SourceFile>)
    requires SourceSetOk(mode, files)
    ensures SourceForm(FilesOf(files)) && !Mixed(FilesOf(files))
  {
    hide FilesOf, SourceSetOk, Yaml;
    var fs := FilesOf(files);
    forall p | p in fs ensures p.AtNative? || (p.InConfigD? && Yaml(p.file)) {
      AcceptedFiles(mode, files, p);
    }
    if Mixed(fs) {
      AcceptedFiles(mode, files, AtNative);
      var p :| p in fs && p.InConfigD?;
      AcceptedFiles(mode, files, p);
    }
  }

  /** Staging files and reading them back changes nothing. */
  lemma StageHolds(fs: Files)
    requires SourceForm(fs)
    ensures Sources(StageOf(fs)) == fs && Readable(StageOf(fs)) && (!Mixed(fs) ==> !Coexists(StageOf(fs)))
  {
    hide Yaml;
    var stage := StageOf(fs);
    assert stage[ConfigD].files == ConfigFiles(fs) && (NativeYaml in stage <==> AtNative in fs);
    forall p ensures (p in Sources(stage) <==> p in fs) && (p in fs ==> Sources(stage)[p] == fs[p]) {
      assert p.InConfigD? ==> (p in fs <==> p.file in ConfigFiles(fs));
    }
    if Coexists(stage) {
      var f :| f in ConfigFiles(fs);
      assert InConfigD(f) in fs;
    }
  }

  lemma SourcesOfReplaced(was: Area, staged: Area)
    requires ConfigD in staged
    ensures Sources((was - Set(TARGETS)) + Only(staged, TARGETS)) == Sources(staged)
    ensures Readable((was - Set(TARGETS)) + Only(staged, TARGETS)) <==> Readable(staged)
  {
    var after := (was - Set(TARGETS)) + Only(staged, TARGETS);
    assert ConfigD in TARGETS && NativeYaml in TARGETS;
    assert after[ConfigD] == staged[ConfigD];
    assert NativeYaml in after <==> NativeYaml in staged;
  }

  /** What an attempt to replace the draft meets: whether the files are read and hashed, staged and loaded, what the
      commit meets, and whether the draft is hashed once more after it. */
  datatype Weather = Weather(read: bool, staging: bool, parses: bool, commit: Faults, hashed: bool)

  /** A replacement that gets as far as the commit. */
  ghost predicate Prepares(data: Area, mode: DraftMode, files: seq<SourceFile>, expected: Option<Files>, w: Weather) {
    && w.read && Readable(data) && (expected.Some? ==> expected.value == Sources(data))
    && SourceSetOk(mode, files) && w.staging && w.parses
  }

  /** Loading a readable draft creates config.d when it is absent, and changes nothing else. */
  function Loaded(data: Area, fault: bool): Area {
    if !fault && Readable(data) && ConfigD !in data then data[ConfigD := Directory(map[])] else data
  }

  class DataDir {
    const disk: Disk
    var snapshots: map<nat, Files>

    constructor (disk: Disk)
      ensures this.disk == disk && snapshots == map[] && Valid()
    {
      this.disk, snapshots := disk, map[];
    }

    /** Every snapshot was captured from a data directory. */
    ghost predicate Valid()
      reads this
    {
      forall n :: n in snapshots ==> SourceForm(snapshots[n])
    }

    /** The draft is exactly the given files as soon as the commit succeeds, which is not yet success: the hash of the
        new draft may still fail. Before that, an error leaves the old draft, exactly unless the commit was reached
        and cannot recover it. */
    method ReplaceDraft(mode: DraftMode, files: seq<SourceFile>, expected: Option<Files>, w: Weather) returns (ok: bool)
      modifies disk
      ensures var was, staged := old(disk.data), StageOf(FilesOf(files));
              var prepared := Prepares(was, mode, files, expected, w);
              var committed := prepared && Commits(was, staged, w.commit);
              && (ok <==> committed && w.hashed)
              && disk.data == (if prepared then AfterCommit(was, staged, w.commit) else was)
              && (committed ==> Sources(disk.data) == FilesOf(files) && Readable(disk.data) && !Coexists(disk.data))
              && (!committed ==> (disk.data == was <==> !prepared || Recovers(was, w.commit)))
              && Outside(disk.data) == Outside(was)
    {
      hide Recovers, Outside, Commits, Only, Set, Coexists, StageOf, Sources, FilesOf, SourceForm, Mixed, SourceSetOk,
        AfterCommit;
      ok := false;
      if !w.read || !Readable(disk.data) || (expected.Some? && expected.value != Sources(disk.data)) {
        return;
      }
      var valid := ValidateSourceSet(mode, files);
      if !valid || !w.staging || !w.parses {
        return;
      }
      ghost var fs := FilesOf(files);
      disk.stage, disk.backup := StageOf(FilesOf(files)), map[];
      AcceptedForm(mode, files);
      StageHolds(fs);
      SourcesOfReplaced(disk.data, disk.stage) by { StageHasConfig(fs); }
      var r := disk.Commit(w.commit);
      ok := r.Replaced? && w.hashed;
      if r.Replaced? {
        ReplacedOutcome(old(disk.data), StageOf(fs));
      }
    }

    /** Loading creates config.d when it is absent, and refuses a mixed draft. */
    method LoadDraft(fault: bool) returns (r: Option<Files>)
      modifies disk
      ensures disk.data == Loaded(old(disk.data), fault)
      ensures disk.stage == old(disk.stage) && disk.backup == old(disk.backup)
      ensures Sources(disk.data) == Sources(old(disk.data))
      ensures r.Some? <==> !fault && Readable(old(disk.data)) && !Mixed(Sources(disk.data))
      ensures r.Some? ==> r.value == Sources(disk.data) && Readable(disk.data)
    {
      hide Sources, Mixed;
      if fault || !Readable(disk.data) {
        return None;
      }
      if ConfigD !in disk.data {
        EmptyConfig(disk.data);
        disk.data := disk.data[ConfigD := Directory(map[])];
      }
      r := if Mixed(Sources(disk.data)) then None else Some(Sources(disk.data));
    }

    /** Copies the sources into versions/n; the directory appears by one rename, or not at all. */
    method Snapshot(n: nat, fault: bool) returns (ok: bool)
      requires Valid()
      modifies this
      ensures Valid()
      ensures ok <==> n > 0 && n !in old(snapshots) && Readable(disk.data) && !fault
      ensures snapshots == if ok then old(snapshots)[n := Sources(disk.data)] else old(snapshots)
    {
      hide Sources, SourceForm;
      ok := n > 0 && Readable(disk.data) && n !in snapshots && !fault;
      if ok {
        SourcesHaveForm(disk.data);
        snapshots := snapshots[n := Sources(disk.data)];
      }
    }

    /** Puts a snapshot's sources back into the draft, exactly when the snapshot has files (an empty one has no
        config directory), is not mixed, would overwrite nothing without force, and no call fails. */
    method RollbackSource(n: nat, force: bool, w: Weather) returns (ok: bool)
      requires Valid()
      modifies disk
      ensures var was := old(disk.data);
              var prepared := RollsBack(was, snapshots, n, force, w);
              var committed := prepared && Commits(was, StageOf(snapshots[n]), w.commit);
              && (ok <==> committed && w.hashed)
              && disk.data == (if prepared then AfterCommit(was, StageOf(snapshots[n]), w.commit) else was)
              && (committed ==> Sources(disk.data) == snapshots[n] && Readable(disk.data) && !Coexists(disk.data))
              && (!committed ==> (disk.data == was <==> !prepared || Recovers(was, w.commit)))
              && Outside(disk.data) == Outside(was)
    {
      hide Recovers, Outside, Sources, Coexists, SourceSetOk, SourceForm, Mixed, Commits, StageOf, FilesOf, Readable,
        AfterCommit;
      ok := false;
      if n == 0 || n !in snapshots || snapshots[n] == map[] || !w.read || !Readable(disk.data) {
        return;
      }
      if !force && Sources(disk.data) != map[] {
        return;
      }
      var files := Listed(snapshots[n]);
      var mode := if snapshots[n].Keys == {AtNative} then Native else Abstract;
      SnapshotIsSourceSet(mode, files, snapshots[n]);
      ok := ReplaceDraft(mode, files, Some(Sources(disk.data)), w);
    }
  }

  /** Nothing goes wrong but the hash of the new draft: the replacement reports an error over the new draft. */
  method HashErrorAfterCommit() returns (was: Files, files: seq<SourceFile>, w: Weather, ok: bool, now: Files)
    ensures w.read && w.staging && w.parses && w.commit == CALM
    ensures !ok && now == FilesOf(files) && now != was
  {
    hide Sources, FilesOf, StageOf, Commits, AfterCommit, Recovers, Outside, Coexists, PathOk;
    NativeAlone("old");
    NativeAlone("new");
    AcceptedPaths(Native, "native.yaml");
    var disk := new Disk(map[NativeYaml := File("old")]);
    var dir := new DataDir(disk);
    was, files := Sources(disk.data), [SourceFile("native.yaml", "new")];
    w := Weather(true, true, true, CALM, false);
    CalmCommits(disk.data, StageOf(FilesOf(files)));
    ok := dir.ReplaceDraft(Native, files, Some(was), w);
    now := Sources(disk.data);
    assert now[AtNative] != was[AtNative];
  }

  lemma NativeAlone(text: string)
    ensures Sources(map[NativeYaml := File(text)]) == map[AtNative := text]
    ensures FilesOf([SourceFile("native.yaml", text)]) == map[AtNative := text]
  {
    var files := [SourceFile("native.yaml", text)];
    assert files[..0] == [];
  }

  /** A rollback that gets as far as the commit: there is a snapshot to go back to, going back may overwrite the
      draft, and its files load. */
  ghost predicate RollsBack(data: Area, snapshots: map<nat, Files>, n: nat, force: bool, w: Weather) {
    && n > 0 && n in snapshots && snapshots[n] != map[] && !Mixed(snapshots[n])
    && w.read && Readable(data) && (force || Sources(data) == map[]) && w.staging && w.parses
  }

  /** The files of a snapshot are a source set exactly when it is not mixed. */
  lemma SnapshotIsSourceSet(mode: DraftMode, files: seq<SourceFile>, fs: Files)
    requires SourceForm(fs) && fs != map[] && mode == if fs.Keys == {AtNative} then Native else Abstract
    requires FilesOf(files) == fs && UniquePaths(files) && |files| == |fs|
    requires forall i :: 0 <= i < |files| ==> exists p :: p in fs && files[i].path == Render(p)
    ensures SourceSetOk(mode, files) <==> !Mixed(fs)
  {
    hide PathOk, Yaml, FilesOf;
    if SourceSetOk(mode, files) {
      AcceptedForm(mode, files);
    }
    if !Mixed(fs) {
      assert |fs| == |fs.Keys|;
      assert AtNative in fs && (forall p :: p in fs ==> p == AtNative) ==> fs.Keys == {AtNative};
      forall i | 0 <= i < |files| ensures PathOk(mode, files[i].path) {
        var p :| p in fs && files[i].path == Render(p);
        RenderedIsOk(mode, p);
      }
    }
  }

  lemma RenderedIsOk(mode: DraftMode, p: Path)
    requires match mode case Native => p == AtNative case Abstract => p.InConfigD? && Yaml(p.file)
    ensures PathOk(mode, Render(p))
  {
    hide PathOk, YamlExt;
    AcceptedPaths(mode, Render(p));
  }

  lemma EmptyConfig(a: Area)
    requires ConfigD !in a
    ensures Sources(a[ConfigD := Directory(map[])]) == Sources(a)
  {
    hide Yaml;
    var b := a[ConfigD := Directory(map[])];
    assert b[ConfigD].files == map[] && (NativeYaml in b <==> NativeYaml in a);
  }

  lemma StageHasConfig(fs: Files)
    ensures ConfigD in StageOf(fs)
  {
  }

  /** The files of a snapshot as a list; its order does not matter to the replacement. */
  method Listed(fs: Files) returns (files: seq<SourceFile>)
    requires SourceForm(fs)
    ensures FilesOf(files) == fs && UniquePaths(files) && |files| == |fs|
    ensures forall i :: 0 <= i < |files| ==> exists p :: p in fs && files[i].path == Render(p)
  {
    hide FilesOf, Render, Parse, SourceForm;
    files := [];
    assert FilesOf([]) == map[] by { NoFiles(); }
    var todo := fs.Keys;
    while todo != {}
      invariant todo <= fs.Keys && |files| + |todo| == |fs.Keys|
      invariant FilesOf(files).Keys == fs.Keys - todo
      invariant forall p :: p in FilesOf(files) ==> FilesOf(files)[p] == fs[p]
      invariant forall i :: 0 <= i < |files| ==> exists p :: p in fs && p !in todo && files[i].path == Render(p)
      invariant UniquePaths(files)
    {
      var p :| p in todo;
      ParseRender(fs, p);
      forall i | 0 <= i < |files| ensures files[i].path != Render(p) {
        var q :| q in fs && q !in todo && files[i].path == Render(q);
        ParseRender(fs, q);
      }
      OneMoreFile(files, SourceFile(Render(p), fs[p]));
      files, todo := files + [SourceFile(Render(p), fs[p])], todo - {p};
    }
  }

  lemma NoFiles()
    ensures FilesOf([]) == map[]
  {
  }

  lemma OneMoreFile(files: seq<SourceFile>, f: SourceFile)
    ensures FilesOf(files + [f]) == FilesOf(files)[Parse(f.path) := f.content]
  {
    assert (files + [f])[..|files|] == files;
  }
}
