/**
 * `Config` of cargo-rapp/src/config.rs: the record that says which crate to
 * show and where its files go, how it is stored in the scratch directory, and
 * `create_and_save`, which resolves the single candidate crate, prepares the
 * target directory chain and saves the new record.
 */
module Configs {
  import opened Wrappers
  import opened Text
  import opened Paths
  import opened Errors
  import opened Fs
  import opened Ron
  import opened Workspace
  import opened LexOrder
  import opened ByName
  import opened Discovery

  const ConfigName: Component := Utf8("config")
  const DebugName: Component := Utf8("debug")
  const BuildName: Component := Utf8("build")
  const RappRunnerName: Component := Utf8("rapp_runner")

  datatype Config = Config(
    name: string,
    targetDir: Path,
    scratchDir: Path,
    appDir: Path,
    useRelativePaths: bool,
    rebuild: bool)

  /** `config_file_path`: `dir/config`. */
  function ConfigFilePath(dir: Path): (p: Path)
    ensures p != [] && Parent(p) == dir && p[|p| - 1] == ConfigName
  {
    dir + [ConfigName]
  }

  /** The record's text; every path in it must be UTF-8. */
  function ConfigText(c: Config): string
    requires IsUtf8(c.targetDir) && IsUtf8(c.scratchDir) && IsUtf8(c.appDir)
  {
    "(name:" + (Quote(c.name) +
    (",target_dir:" + (PathText(c.targetDir) +
    (",scratch_dir:" + (PathText(c.scratchDir) +
    (",app_dir:" + (PathText(c.appDir) +
    (",use_relative_paths:" + (BoolText(c.useRelativePaths) +
    (",rebuild:" + (BoolText(c.rebuild) + ")")))))))))))
  }

  /** `ron::to_string`: fails exactly when a path is not UTF-8. */
  function SerializeConfig(c: Config): (r: Option<string>)
    ensures r.Some? <==> IsUtf8(c.targetDir) && IsUtf8(c.scratchDir) && IsUtf8(c.appDir)
  {
    if IsUtf8(c.targetDir) && IsUtf8(c.scratchDir) && IsUtf8(c.appDir) then Some(ConfigText(c)) else None
  }

  /** `ron::from_str::<Config>`: the whole text must be one record. */
  function ParseConfig(t: string): Option<Config>
  {
    var t1 :- Expect("(name:", t);
    var (name, t2) :- ParseQuoted(t1);
    var t3 :- Expect(",target_dir:", t2);
    var (targetDir, t4) :- ParsePath(t3);
    var t5 :- Expect(",scratch_dir:", t4);
    var (scratchDir, t6) :- ParsePath(t5);
    var t7 :- Expect(",app_dir:", t6);
    var (appDir, t8) :- ParsePath(t7);
    var t9 :- Expect(",use_relative_paths:", t8);
    var (useRelativePaths, t10) :- ParseBool(t9);
    var t11 :- Expect(",rebuild:", t10);
    var (rebuild, t12) :- ParseBool(t11);
    var t13 :- Expect(")", t12);
    if t13 == [] then Some(Config(name, targetDir, scratchDir, appDir, useRelativePaths, rebuild)) else None
  }

  /** Reading back the text of a record gives the record. */
  lemma ConfigRoundTrip(c: Config)
    requires IsUtf8(c.targetDir) && IsUtf8(c.scratchDir) && IsUtf8(c.appDir)
    ensures ParseConfig(ConfigText(c)) == Some(c)
  {
    var tail12 := ")";
    var tail11 := BoolText(c.rebuild) + tail12;
    var tail10 := ",rebuild:" + tail11;
    var tail9 := BoolText(c.useRelativePaths) + tail10;
    var tail8 := ",use_relative_paths:" + tail9;
    var tail7 := PathText(c.appDir) + tail8;
    var tail6 := ",app_dir:" + tail7;
    var tail5 := PathText(c.scratchDir) + tail6;
    var tail4 := ",scratch_dir:" + tail5;
    var tail3 := PathText(c.targetDir) + tail4;
    var tail2 := ",target_dir:" + tail3;
    var tail1 := Quote(c.name) + tail2;
    ExpectLiteral("(name:", tail1);
    QuotedRoundTrip(c.name, tail2);
    ExpectLiteral(",target_dir:", tail3);
    PathRoundTrip(c.targetDir, tail4);
    ExpectLiteral(",scratch_dir:", tail5);
    PathRoundTrip(c.scratchDir, tail6);
    ExpectLiteral(",app_dir:", tail7);
    PathRoundTrip(c.appDir, tail8);
    ExpectLiteral(",use_relative_paths:", tail9);
    BoolRoundTrip(c.useRelativePaths, tail10);
    ExpectLiteral(",rebuild:", tail11);
    BoolRoundTrip(c.rebuild, tail12);
    ExpectLiteral(")", "");
    assert tail12 == ")" + "";
  }

  /** `Config::read_from`: best effort, `None` on any read or parse failure. */
  function ReadFrom(e: Entries, dir: Path): (r: Option<Config>)
    ensures r.Some? ==> ReadToString(e, ConfigFilePath(dir)).Some?
  {
    var s :- ReadToString(e, ConfigFilePath(dir));
    ParseConfig(s)
  }

  /** `Config::write_to`. */
  function WriteToSpec(e: Entries, c: Config, dir: Path): (Result<()>, Entries)
  {
    match SerializeConfig(c)
    case None => (Err(SerializeFailed), e)
    case Some(s) => WriteSpec(e, ConfigFilePath(dir), s)
  }

  method WriteTo(c: Config, dir: Path, fs: FileSystem) returns (r: Result<()>)
    modifies fs
    ensures (r, fs.entries) == WriteToSpec(old(fs.entries), c, dir)
  {
    var file := ConfigFilePath(dir);
    var s := SerializeConfig(c);
    if s.None? {
      return Err(SerializeFailed);
    }
    r := fs.Write(file, s.value);
  }

  /** A written record is what `read_from` returns; the write succeeds exactly when the record serialises and `dir/config` can be written. */
  lemma WriteThenReadConfig(e: Entries, c: Config, dir: Path)
    ensures WriteToSpec(e, c, dir).0.Ok? <==>
      IsUtf8(c.targetDir) && IsUtf8(c.scratchDir) && IsUtf8(c.appDir) &&
      !IsDir(e, ConfigFilePath(dir)) && IsDir(e, dir)
    ensures WriteToSpec(e, c, dir).0.Ok? ==> ReadFrom(WriteToSpec(e, c, dir).1, dir) == Some(c)
  {
    if SerializeConfig(c).Some? {
      WriteSucceeds(e, ConfigFilePath(dir), ConfigText(c));
      ConfigRoundTrip(c);
    }
  }

  /** Writing the record touches only `dir/config`. */
  lemma WriteToFrame(e: Entries, c: Config, dir: Path, q: Path)
    requires q != ConfigFilePath(dir)
    ensures SameAt(e, WriteToSpec(e, c, dir).1, q)
  {
    if SerializeConfig(c).Some? {
      WriteFrame(e, ConfigFilePath(dir), ConfigText(c), q);
    }
  }

  /**
   * The directory chain `create_and_save` prepares: the target directory, then
   * `debug`, `build` and `rapp_runner` below it, each created when missing;
   * the first failure stops it. On success the innermost directory is returned.
   */
  function TargetDirSpec(e: Entries, targetDirectory: Path): (Result<Path>, Entries)
  {
    PushEnsure(PushEnsure(PushEnsure(EnsureFirst(e, targetDirectory), DebugName), BuildName), RappRunnerName)
  }

  /** `if !target_dir.exists() { fs::create_dir(&target_dir)?; }` on the target directory itself. */
  function EnsureFirst(e: Entries, targetDirectory: Path): (Result<Path>, Entries)
  {
    var (r, e0) := EnsureDirSpec(e, targetDirectory);
    if r.Err? then (Err(r.error), e0) else (Ok(targetDirectory), e0)
  }

  /** `target_dir.push(c); if !target_dir.exists() { fs::create_dir(&target_dir)?; }`, unless an earlier step failed. */
  function PushEnsure(prev: (Result<Path>, Entries), c: Component): (Result<Path>, Entries)
  {
    if prev.0.Err? then prev
    else
      var p: Path := prev.0.value + [c];
      var (r, e1) := EnsureDirSpec(prev.1, p);
      if r.Err? then (Err(r.error), e1) else (Ok(p), e1)
  }

  predicate FailsWithIo<T>(r: Result<T>)
  {
    r.Err? ==> r.error.Io?
  }

  lemma EnsureFirstErrors(e: Entries, targetDirectory: Path)
    ensures FailsWithIo(EnsureFirst(e, targetDirectory).0)
  {
  }

  lemma PushEnsureErrors(prev: (Result<Path>, Entries), c: Component)
    requires FailsWithIo(prev.0)
    ensures FailsWithIo(PushEnsure(prev, c).0)
  {
  }

  /** The directory chain fails only with I/O errors. */
  lemma TargetDirErrors(e: Entries, targetDirectory: Path)
    ensures FailsWithIo(TargetDirSpec(e, targetDirectory).0)
  {
    var s0 := EnsureFirst(e, targetDirectory);
    EnsureFirstErrors(e, targetDirectory);
    var s1 := PushEnsure(s0, DebugName);
    PushEnsureErrors(s0, DebugName);
    var s2 := PushEnsure(s1, BuildName);
    PushEnsureErrors(s1, BuildName);
    PushEnsureErrors(s2, RappRunnerName);
  }

  /**
   * `Config::create_and_save(cache_dir)`, with the working directory `appDir`
   * and the answer of `cargo metadata` (`None` when it fails) as inputs.
   */
  function CreateAndSaveSpec(e: Entries, cacheDir: Path, appDir: Path, meta: Option<Metadata>): (Result<Config>, Entries)
  {
    if meta.None? then (Err(MetadataFailed), e)
    else
      var cands := Candidates(meta.value);
      if |cands| == 0 then (Err(Rapp(NoRappCrateFound(cacheDir))), e)
      else if |cands| > 1 then (Err(Rapp(MultipleRappCratesFound(Names(cands)))), e)
      else SaveSpec(e, cacheDir, appDir, cands[0].name, meta.value.targetDirectory)
  }

  /** The steps of `create_and_save` once the candidate is known: the target directory chain, then the record, saved. */
  function SaveSpec(e: Entries, cacheDir: Path, appDir: Path, name: string, targetDirectory: Path): (Result<Config>, Entries)
  {
    var (d, e1) := TargetDirSpec(e, targetDirectory);
    if d.Err? then (Err(d.error), e1)
    else
      var config := Config(name, d.value, cacheDir, appDir, false, false);
      var (w, e2) := WriteToSpec(e1, config, cacheDir);
      if w.Err? then (Err(w.error), e2) else (Ok(config), e2)
  }

  /** The file-system steps fail only with I/O or serialisation errors, never with a `RappError`. */
  lemma SaveErrors(e: Entries, cacheDir: Path, appDir: Path, name: string, targetDirectory: Path)
    ensures SaveSpec(e, cacheDir, appDir, name, targetDirectory).0.Err? ==>
      !SaveSpec(e, cacheDir, appDir, name, targetDirectory).0.error.Rapp?
  {
    TargetDirErrors(e, targetDirectory);
    var d := TargetDirSpec(e, targetDirectory);
    if d.0.Ok? {
      WriteToErrors(d.1, Config(name, d.0.value, cacheDir, appDir, false, false), cacheDir);
    }
  }

  /** `write_to` fails only with a serialisation or an I/O error. */
  lemma WriteToErrors(e: Entries, c: Config, dir: Path)
    ensures WriteToSpec(e, c, dir).0.Err? ==> !WriteToSpec(e, c, dir).0.error.Rapp?
  {
  }

  /** `Config::create_and_save`. */
  method CreateAndSave(cacheDir: Path, appDir: Path, meta: Option<Metadata>, fs: FileSystem) returns (r: Result<Config>)
    modifies fs
    ensures (r, fs.entries) == CreateAndSaveSpec(old(fs.entries), cacheDir, appDir, meta)
  {
    if meta.None? {
      return Err(MetadataFailed);
    }
    var candidates := RappCandidates(meta.value);
    if |candidates| == 0 {
      return Err(Rapp(NoRappCrateFound(cacheDir)));
    }
    if |candidates| > 1 {
      var names := Names(candidates);
      return Err(Rapp(MultipleRappCratesFound(names)));
    }
    var candidate := candidates[0];

    // Create target dir
    var targetDir: Path := meta.value.targetDirectory;
    var c := fs.EnsureDir(targetDir);
    if c.Err? {
      return Err(c.error);
    }
    targetDir := targetDir + [DebugName];
    c := fs.EnsureDir(targetDir);
    if c.Err? {
      return Err(c.error);
    }
    targetDir := targetDir + [BuildName];
    c := fs.EnsureDir(targetDir);
    if c.Err? {
      return Err(c.error);
    }
    targetDir := targetDir + [RappRunnerName];
    c := fs.EnsureDir(targetDir);
    if c.Err? {
      return Err(c.error);
    }

    var config := Config(candidate.name, targetDir, cacheDir, appDir, false, false);
    var w := WriteTo(config, cacheDir, fs);
    if w.Err? {
      return Err(w.error);
    }
    r := Ok(config);
  }

  /** The chain of directories `create_and_save` prepares, outermost first. */
  function TargetChain(targetDirectory: Path): (r: seq<Path>)
    ensures |r| == 4 && r[0] == targetDirectory
    ensures forall i :: 0 < i < 4 ==> r[i] != [] && Parent(r[i]) == r[i - 1]
    ensures r[3] == targetDirectory + [DebugName, BuildName, RappRunnerName]
  {
    var debug: Path := targetDirectory + [DebugName];
    var build: Path := debug + [BuildName];
    [targetDirectory, debug, build, build + [RappRunnerName]]
  }

  /**
   * A prepared chain ends in `target_directory/debug/build/rapp_runner`; every
   * directory of it exists afterwards, the ones that existed are untouched,
   * and nothing outside the chain changes.
   */
  lemma TargetDirResult(e: Entries, targetDirectory: Path)
    requires TargetDirSpec(e, targetDirectory).0.Ok?
    ensures TargetDirSpec(e, targetDirectory).0.value == TargetChain(targetDirectory)[3]
    ensures forall p :: p in TargetChain(targetDirectory) ==> Exists(TargetDirSpec(e, targetDirectory).1, p)
    ensures forall p :: p in TargetChain(targetDirectory) && !Exists(e, p) ==>
      p in TargetDirSpec(e, targetDirectory).1 && TargetDirSpec(e, targetDirectory).1[p] == Dir
    ensures forall q :: (q !in TargetChain(targetDirectory) || Exists(e, q)) ==>
      SameAt(e, TargetDirSpec(e, targetDirectory).1, q)
  {
    var s0 := EnsureFirst(e, targetDirectory);
    var s1 := PushEnsure(s0, DebugName);
    var s2 := PushEnsure(s1, BuildName);
    EnsureDirResult(e, targetDirectory);
    PushEnsureResult(s0, DebugName);
    PushEnsureResult(s1, BuildName);
    PushEnsureResult(s2, RappRunnerName);
    TargetDirFrame(e, targetDirectory);
  }

  /** The chain changes nothing outside itself, nor any directory of it that already existed. */
  lemma TargetDirFrame(e: Entries, targetDirectory: Path)
    requires TargetDirSpec(e, targetDirectory).0.Ok?
    ensures forall q :: (q !in TargetChain(targetDirectory) || Exists(e, q)) ==>
      SameAt(e, TargetDirSpec(e, targetDirectory).1, q)
  {
    var chain := TargetChain(targetDirectory);
    var s0 := EnsureFirst(e, targetDirectory);
    var s1 := PushEnsure(s0, DebugName);
    var s2 := PushEnsure(s1, BuildName);
    var s3 := PushEnsure(s2, RappRunnerName);
    PushEnsureResult(s2, RappRunnerName);
    PushEnsureResult(s1, BuildName);
    PushEnsureResult(s0, DebugName);
    assert s0.0.value == chain[0] && s1.0.value == chain[1] && s2.0.value == chain[2];
    forall q | q !in chain || Exists(e, q)
      ensures SameAt(e, s3.1, q)
    {
      EnsureFirstFrame(e, targetDirectory, q);
      PushEnsureFrame(s0, DebugName, q);
      PushEnsureFrame(s1, BuildName, q);
      PushEnsureFrame(s2, RappRunnerName, q);
    }
  }

  /** The first step changes no other path, nor the target directory when it existed. */
  lemma EnsureFirstFrame(e: Entries, targetDirectory: Path, q: Path)
    requires q != targetDirectory || Exists(e, q)
    ensures SameAt(e, EnsureFirst(e, targetDirectory).1, q)
  {
    if q != targetDirectory {
      EnsureDirFrame(e, targetDirectory, q);
    }
  }

  /** A step changes no other path, nor its own directory when it existed. */
  lemma PushEnsureFrame(prev: (Result<Path>, Entries), c: Component, q: Path)
    requires prev.0.Ok? ==> q != prev.0.value + [c] || Exists(prev.1, q)
    ensures SameAt(prev.1, PushEnsure(prev, c).1, q)
  {
    if prev.0.Ok? && q != prev.0.value + [c] {
      EnsureDirFrame(prev.1, prev.0.value + [c], q);
    }
  }

  /** A successful step appends its component; the directory exists afterwards and was added only if missing. */
  lemma PushEnsureResult(prev: (Result<Path>, Entries), c: Component)
    requires PushEnsure(prev, c).0.Ok?
    ensures prev.0.Ok?
    ensures var p := prev.0.value + [c];
      var next := PushEnsure(prev, c);
      && next.0.value == p
      && Exists(next.1, p)
      && (Exists(prev.1, p) ==> next.1 == prev.1)
      && (!Exists(prev.1, p) ==> next.1 == prev.1[p := Dir])
  {
    EnsureDirResult(prev.1, prev.0.value + [c]);
  }

  /** No candidate: `NoRappCrateFound(cache_dir)`, exactly when no workspace package qualifies, and nothing is created or written. */
  lemma CreateAndSaveNoCandidate(e: Entries, cacheDir: Path, appDir: Path, meta: Metadata)
    ensures CreateAndSaveSpec(e, cacheDir, appDir, Some(meta)).0 == Err(Rapp(NoRappCrateFound(cacheDir))) <==>
      meta.workspaceMembers == [] || forall p :: p in meta.packages ==> !Qualifies(p)
    ensures CreateAndSaveSpec(e, cacheDir, appDir, Some(meta)).0 == Err(Rapp(NoRappCrateFound(cacheDir))) ==>
      CreateAndSaveSpec(e, cacheDir, appDir, Some(meta)).1 == e
  {
    NoCandidateWhen(meta);
    if |Candidates(meta)| == 1 {
      SaveErrors(e, cacheDir, appDir, Candidates(meta)[0].name, meta.targetDirectory);
    }
  }

  /**
   * Two or more candidates: `MultipleRappCratesFound` with their names in
   * strictly increasing order, exactly the names of the qualifying packages,
   * and nothing is created or written.
   */
  lemma CreateAndSaveAmbiguous(e: Entries, cacheDir: Path, appDir: Path, meta: Metadata, p: Package, q: Package)
    requires meta.workspaceMembers != []
    requires p in meta.packages && q in meta.packages && Qualifies(p) && Qualifies(q) && p.name != q.name
    ensures CreateAndSaveSpec(e, cacheDir, appDir, Some(meta)).1 == e
    ensures CreateAndSaveSpec(e, cacheDir, appDir, Some(meta)).0.Err?
    ensures CreateAndSaveSpec(e, cacheDir, appDir, Some(meta)).0.error.Rapp?
    ensures CreateAndSaveSpec(e, cacheDir, appDir, Some(meta)).0.error.rapp.MultipleRappCratesFound?
    ensures var names := CreateAndSaveSpec(e, cacheDir, appDir, Some(meta)).0.error.rapp.names;
      (forall i, j :: 0 <= i < j < |names| ==> Less(names[i], names[j])) &&
      (forall n :: n in names <==> exists x :: x in meta.packages && Qualifies(x) && x.name == n)
  {
    AmbiguousWhen(meta);
    CandidatesSortedUnique(meta);
    CandidateNames(meta);
    var c := Candidates(meta);
    var names := Names(c);
    forall n
      ensures n in names <==> n in NameSet(c)
    {
      if n in names {
        var i :| 0 <= i < |names| && names[i] == n;
        assert c[i] in c;
      }
      if n in NameSet(c) {
        var x :| x in c && x.name == n;
        var i :| 0 <= i < |c| && c[i] == x;
        assert names[i] == n;
      }
    }
  }

  /** The successful path of `create_and_save`, step by step. */
  lemma CreateAndSaveSteps(e: Entries, cacheDir: Path, appDir: Path, meta: Metadata)
    requires CreateAndSaveSpec(e, cacheDir, appDir, Some(meta)).0.Ok?
    ensures |Candidates(meta)| == 1
    ensures TargetDirSpec(e, meta.targetDirectory).0.Ok?
    ensures var c := Config(Candidates(meta)[0].name, TargetDirSpec(e, meta.targetDirectory).0.value, cacheDir, appDir, false, false);
      var w := WriteToSpec(TargetDirSpec(e, meta.targetDirectory).1, c, cacheDir);
      w.0.Ok? && CreateAndSaveSpec(e, cacheDir, appDir, Some(meta)) == (Ok(c), w.1)
  {
  }

  /**
   * Exactly one candidate and every step succeeds: the record names the
   * qualifying crate, points at `target_directory/debug/build/rapp_runner`,
   * takes the scratch and app directories as given and has both flags off.
   */
  lemma CreateAndSaveFields(e: Entries, cacheDir: Path, appDir: Path, meta: Metadata)
    requires CreateAndSaveSpec(e, cacheDir, appDir, Some(meta)).0.Ok?
    ensures var c := CreateAndSaveSpec(e, cacheDir, appDir, Some(meta)).0.value;
      && (exists p :: p in meta.packages && Qualifies(p) && p.name == c.name)
      && (forall p :: p in meta.packages && Qualifies(p) ==> p.name == c.name)
      && c.targetDir == meta.targetDirectory + [DebugName, BuildName, RappRunnerName]
      && c.scratchDir == cacheDir
      && c.appDir == appDir
      && !c.useRelativePaths && !c.rebuild
  {
    CreateAndSaveSteps(e, cacheDir, appDir, meta);
    TargetDirResult(e, meta.targetDirectory);
    SoleCandidate(meta);
  }

  /** A sole candidate qualifies, and every qualifying package carries its name. */
  lemma SoleCandidate(meta: Metadata)
    requires |Candidates(meta)| == 1
    ensures var c := Candidates(meta)[0];
      && c in meta.packages && Qualifies(c)
      && (forall p :: p in meta.packages && Qualifies(p) ==> p.name == c.name)
  {
    var cands := Candidates(meta);
    assert cands[0] in cands;
    CandidatesQualify(meta, cands[0]);
    CandidateNames(meta);
    forall p | p in meta.packages && Qualifies(p)
      ensures p.name == cands[0].name
    {
      assert p.name in NameSet(cands);
    }
  }

  /**
   * After a successful `create_and_save` every directory of the chain exists,
   * `read_from(cache_dir)` returns the new record, and nothing but the chain
   * directories and the config file changed.
   */
  lemma CreateAndSaveEffect(e: Entries, cacheDir: Path, appDir: Path, meta: Metadata)
    requires CreateAndSaveSpec(e, cacheDir, appDir, Some(meta)).0.Ok?
    ensures var after := CreateAndSaveSpec(e, cacheDir, appDir, Some(meta)).1;
      && (forall p :: p in TargetChain(meta.targetDirectory) ==> Exists(after, p))
      && ReadFrom(after, cacheDir) == Some(CreateAndSaveSpec(e, cacheDir, appDir, Some(meta)).0.value)
      && (forall q :: q !in TargetChain(meta.targetDirectory) && q != ConfigFilePath(cacheDir) ==> SameAt(e, after, q))
  {
    CreateAndSaveSteps(e, cacheDir, appDir, meta);
    var (d, e1) := TargetDirSpec(e, meta.targetDirectory);
    TargetDirResult(e, meta.targetDirectory);
    var c := Config(Candidates(meta)[0].name, d.value, cacheDir, appDir, false, false);
    var after := WriteToSpec(e1, c, cacheDir).1;
    WriteThenReadConfig(e1, c, cacheDir);
    forall p | p in TargetChain(meta.targetDirectory)
      ensures Exists(after, p)
    {
      if p != ConfigFilePath(cacheDir) {
        WriteToFrame(e1, c, cacheDir, p);
      }
    }
    forall q | q !in TargetChain(meta.targetDirectory) && q != ConfigFilePath(cacheDir)
      ensures SameAt(e, after, q)
    {
      WriteToFrame(e1, c, cacheDir, q);
    }
  }

  /** A workspace with two qualifying libraries, `foo` and `bar`, listed in that order. */
  const Foo := Package("foo", [Dependency("rapp", Normal)], [Target(true)])
  const Bar := Package("bar", [Dependency("rapp", Normal)], [Target(true)])
  const TwoLibraries := Metadata([Foo, Bar], ["foo 0.1.0 (path+file:///ws/foo)"], [])

  /** Both libraries qualify, so one pass over the packages keeps both, in order. */
  lemma TwoLibrariesQualifying()
    ensures Qualifying(TwoLibraries.packages) == [Foo, Bar]
  {
    assert Qualifies(Foo) by { assert Foo.dependencies[0] in Foo.dependencies; }
    assert Qualifies(Bar) by { assert Bar.dependencies[0] in Bar.dependencies; }
    var ps := TwoLibraries.packages;
    assert ps[..1] == [Foo] && ps[..1][..0] == [];
    assert Qualifying(ps[..1]) == Qualifying(ps[..1][..0]) + [Foo] == [Foo];
    assert Qualifying(ps) == Qualifying(ps[..1]) + [Bar];
  }

  /** Sorting puts `bar` before `foo`. */
  lemma TwoLibrariesSorted()
    ensures SortByName([Foo, Bar]) == [Bar, Foo]
  {
    assert Less(Bar.name, Foo.name);
    assert [Foo, Bar][1..] == [Bar] && [Bar][1..] == [];
    assert SortByName([Bar]) == Insert(Bar, []) == [Bar];
    assert SortByName([Foo, Bar]) == Insert(Foo, [Bar]) == [Bar] + Insert(Foo, []);
  }

  /** Both libraries are kept, `bar` before `foo`. */
  lemma TwoLibrariesCandidates()
    ensures Candidates(TwoLibraries) == [Bar, Foo]
  {
    TwoLibrariesQualifying();
    assert Collected(TwoLibraries) == [Foo, Bar] by {
      assert Repeat([Foo, Bar], 1) == Repeat([Foo, Bar], 0) + [Foo, Bar];
    }
    TwoLibrariesSorted();
    assert DedupByName([Bar, Foo]) == [Bar] + DedupByName([Foo]);
  }

  /** Two qualifying libraries `foo` and `bar`: the error carries `["bar", "foo"]` and no file is written. */
  lemma TwoLibrariesScenario(e: Entries, cacheDir: Path, appDir: Path)
    ensures CreateAndSaveSpec(e, cacheDir, appDir, Some(TwoLibraries)) ==
      (Err(Rapp(MultipleRappCratesFound(["bar", "foo"]))), e)
  {
    TwoLibrariesCandidates();
    assert Names([Bar, Foo]) == ["bar", "foo"];
  }
}
