/** Slash-separated paths of a draft: lexical cleaning, and which paths a draft may consist of. */
module SourcePaths {
  import opened Text

  datatype DraftMode = Abstract | Native

  // Lexical paths

  /** The elements between slashes, empty ones included. */
  function Split(s: string): (parts: seq<string>)
    ensures parts != []
  {
    if s == "" then [""]
    else if s[0] == '/' then [""] + Split(s[1..])
    else var rest := Split(s[1..]); [[s[0]] + rest[0]] + rest[1..]
  }

  function Push(stack: seq<string>, part: string, rooted: bool): seq<string> {
    if part == "" || part == "." then stack
    else if part != ".." then stack + [part]
    else if stack != [] && stack[|stack| - 1] != ".." then stack[..|stack| - 1]
    else if rooted then stack
    else stack + [".."]
  }

  function Stack(parts: seq<string>, rooted: bool): seq<string> {
    if parts == [] then [] else Push(Stack(parts[..|parts| - 1], rooted), parts[|parts| - 1], rooted)
  }

  predicate IsAbs(p: string) { p != "" && p[0] == '/' }

  /** The shortest equivalent path. */
  function Clean(p: string): string {
    var stack := Stack(Split(p), IsAbs(p));
    if IsAbs(p) then "/" + Join(stack, "/") else if stack == [] then "." else Join(stack, "/")
  }

  /** The number of characters up to and including the last slash. */
  function UpToSlash(p: string): (n: nat)
    ensures n <= |p| && '/' !in p[n..] && (n > 0 ==> p[n - 1] == '/')
  {
    if p == "" then 0
    else if p[|p| - 1] == '/' then |p|
    else
      var n := UpToSlash(p[..|p| - 1]);
      assert p[n..] == p[..|p| - 1][n..] + [p[|p| - 1]];
      n
  }

  function Dir(p: string): string {
    Clean(p[..UpToSlash(p)])
  }

  predicate HasSuffix(s: string, suffix: string) {
    |suffix| <= |s| && s[|s| - |suffix|..] == suffix
  }

  /** The extension is that of a YAML file. */
  predicate YamlExt(p: string) {
    HasSuffix(p, ".yaml") || HasSuffix(p, ".yml")
  }

  // The check

  predicate Safe(p: string) {
    p != "" && Clean(p) == p && !IsAbs(p) && p != ".." && !("../" <= p)
  }

  predicate PathOk(mode: DraftMode, p: string) {
    && Safe(p)
    && match mode
       case Native => p == "native.yaml"
       case Abstract => Dir(p) == "config.d" && YamlExt(p)
  }

  // What it accepts

  lemma {:induction false} SplitOne(f: string)
    requires '/' !in f
    ensures Split(f) == [f]
  {
    if f != "" {
      SplitOne(f[1..]);
      assert [f[0]] + f[1..] == f;
    }
  }

  lemma {:induction false} SplitAt(d: string, f: string)
    requires '/' !in f
    ensures Split(d + "/" + f) == Split(d) + [f]
  {
    var s := d + "/" + f;
    if d == "" {
      assert s[1..] == f;
      SplitOne(f);
    } else {
      assert s[1..] == d[1..] + "/" + f;
      SplitAt(d[1..], f);
    }
  }

  lemma PushOnto(parts: seq<string>, part: string, rooted: bool)
    ensures Stack(parts + [part], rooted) == Push(Stack(parts, rooted), part, rooted)
  {
    assert (parts + [part])[..|parts|] == parts;
  }

  lemma JoinOfOne(stack: seq<string>, name: string)
    requires '/' !in name && Join(stack, "/") == name && stack != []
    ensures stack == [name]
  {
    JoinHasSlash(stack);
  }

  lemma JoinHasSlash(stack: seq<string>)
    ensures |stack| > 1 ==> '/' in Join(stack, "/")
  {
    if |stack| > 1 {
      assert Join(stack, "/") == stack[0] + "/" + Join(stack[1..], "/");
    }
  }

  lemma {:induction false} SlashAt(d: string, f: string)
    requires '/' !in f
    ensures UpToSlash(d + "/" + f) == |d| + 1
  {
    var p := d + "/" + f;
    if f != "" {
      SlashAt(d, f[..|f| - 1]);
      assert p[..|p| - 1] == d + "/" + f[..|f| - 1];
    }
  }

  lemma DirMeans(d: string, f: string)
    requires '/' !in f && Dir(d + "/" + f) == "config.d"
    ensures !IsAbs(d + "/" + f) && Stack(Split(d), false) == ["config.d"]
  {
    hide Stack, Split, Join;
    var p := d + "/" + f;
    SlashAt(d, f);
    assert p[..|d| + 1] == d + "/" == d + "/" + "";
    SplitAt(d, "");
    PushOnto(Split(d), "", IsAbs(d + "/"));
    var stack := Stack(Split(d), IsAbs(d + "/"));
    assert Clean(d + "/")[0] == 'c';
    assert stack != [] && Join(stack, "/") == "config.d";
    JoinOfOne(stack, "config.d");
  }

  lemma AbstractOnlyIf(p: string)
    requires PathOk(Abstract, p)
    ensures exists f :: p == "config.d/" + f && '/' !in f && YamlExt(f)
  {
    hide Stack, Split, Join, Push, YamlExt;
    var n := UpToSlash(p);
    if n == 0 {
      assert p[..0] == "";
      EmptyCleans();
    } else {
      var d, f := p[..n - 1], p[n..];
      assert p == d + "/" + f;
      DirMeans(d, f);
      SplitAt(d, f);
      PushOnto(Split(d), f, false);
      SuffixOfName(d, f);
      PlainName(f);
      JoinTwo("config.d", f);
      assert p == "config.d/" + f;
    }
  }

  lemma EmptyCleans()
    ensures Clean("") == "."
  {
    assert Split("") == [""] && Stack([""], false) == Push(Stack([], false), "", false);
  }

  lemma JoinTwo(a: string, b: string)
    ensures Join([a, b], "/") == a + "/" + b
  {
    assert [a, b][1..] == [b];
  }

  lemma SuffixMoves(d: string, f: string, suffix: string)
    requires '/' !in suffix && HasSuffix(d + "/" + f, suffix)
    ensures HasSuffix(f, suffix)
  {
    var p := d + "/" + f;
    assert p[|d|] == '/';
    assert forall k :: |p| - |suffix| <= k < |p| ==> p[k] == suffix[k - (|p| - |suffix|)];
    assert |d| < |p| - |suffix|;
    assert f[|f| - |suffix|..] == p[|p| - |suffix|..];
  }

  /** A YAML path ends in a YAML name. */
  lemma SuffixOfName(d: string, f: string)
    requires YamlExt(d + "/" + f)
    ensures YamlExt(f)
  {
    hide HasSuffix;
    if HasSuffix(d + "/" + f, ".yaml") {
      SuffixMoves(d, f, ".yaml");
    } else {
      SuffixMoves(d, f, ".yml");
    }
  }

  lemma PlainName(f: string)
    requires '/' !in f && YamlExt(f)
    ensures |f| >= 4 && Push(["config.d"], f, false) == ["config.d", f]
  {
  }

  lemma AbstractIf(f: string)
    requires '/' !in f && YamlExt(f)
    ensures PathOk(Abstract, "config.d/" + f)
  {
    hide Clean, Dir, YamlExt;
    var p := "config.d/" + f;
    assert p == "config.d" + "/" + f && p[0] == 'c';
    CleanConfigPath(f);
    DirOfConfigPath(f);
    SuffixKept("config.d/", f);
  }

  lemma CleanConfigPath(f: string)
    requires '/' !in f && YamlExt(f)
    ensures Clean("config.d" + "/" + f) == "config.d" + "/" + f
  {
    hide Split, Stack, Push, Join, YamlExt;
    OneName();
    SplitAt("config.d", f);
    PushOnto(Split("config.d"), f, false);
    PlainName(f);
    JoinTwo("config.d", f);
    assert ("config.d" + "/" + f)[0] == 'c';
  }

  lemma DirOfConfigPath(f: string)
    requires '/' !in f
    ensures Dir("config.d" + "/" + f) == "config.d"
  {
    hide Split, Stack, Join, UpToSlash;
    var p := "config.d" + "/" + f;
    SlashAt("config.d", f);
    OneName();
    assert p[..9] == "config.d" + "/" + "" && p[0] == 'c';
    SplitAt("config.d", "");
    PushOnto(Split("config.d"), "", false);
  }

  lemma OneName()
    ensures Split("config.d") == ["config.d"] && Stack(["config.d"], false) == ["config.d"]
    ensures Join(["config.d"], "/") == "config.d"
  {
    SplitOne("config.d");
    PushOnto([], "config.d", false);
    assert [] + ["config.d"] == ["config.d"];
  }

  lemma SuffixKept(a: string, f: string)
    requires YamlExt(f)
    ensures YamlExt(a + f)
  {
    hide HasSuffix;
    if HasSuffix(f, ".yaml") {
      OneSuffixKept(a, f, ".yaml");
    } else {
      OneSuffixKept(a, f, ".yml");
    }
  }

  lemma OneSuffixKept(a: string, f: string, suffix: string)
    requires HasSuffix(f, suffix)
    ensures HasSuffix(a + f, suffix)
  {
    var p := a + f;
    assert p[|p| - |suffix|..] == f[|f| - |suffix|..];
  }

  lemma NativeIsSafe()
    ensures Safe("native.yaml")
  {
    SplitOne("native.yaml");
    PushOnto([], "native.yaml", false);
    assert [] + ["native.yaml"] == ["native.yaml"];
  }

  /** The accepted paths: native.yaml alone, or YAML files directly below config.d. No path escapes the draft. */
  lemma AcceptedPaths(mode: DraftMode, p: string)
    ensures PathOk(mode, p) <==>
      match mode
      case Native => p == "native.yaml"
      case Abstract => exists f :: p == "config.d/" + f && '/' !in f && YamlExt(f)
  {
    hide Safe, Dir, YamlExt;
    match mode {
      case Native => NativeIsSafe();
      case Abstract =>
        if f :| p == "config.d/" + f && '/' !in f && YamlExt(f) {
          AbstractIf(f);
        }
        if PathOk(mode, p) {
          AbstractOnlyIf(p);
        }
    }
  }
}
