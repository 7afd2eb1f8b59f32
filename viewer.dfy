/**
 * `Viewer` of cargo-rapp/src/viewer.rs: the generated wrapper project in the
 * scratch directory, its build by `build.sh` and the launch of the binary it
 * produces, and the cached record of all that in `scratch_dir/viewer`.
 */
module Viewers {
  import opened Wrappers
  import opened Text
  import opened Paths
  import opened Errors
  import opened Fs
  import opened Ron
  import opened Replace
  import opened Configs

  /** How a subprocess ended: it could not be started (`output()` failed), or it exited with a status code. */
  datatype Exit = NotSpawned | Exited(code: int)

  /**
   * What the build's subprocesses do: how `chmod +x build.sh` and `build.sh`
   * end, and the binary the script leaves at the artifact path, if any.
   */
  datatype Tools = Tools(chmod: Exit, script: Exit, artifact: Option<string>)

  /** The files embedded from code_gen: the two manifest templates and the entry point. */
  datatype Templates = Templates(cargoToml: string, cargoRelativePaths: string, mainRs: string)

  /** The persisted value of a `Viewer`. */
  datatype ViewerRecord = ViewerRecord(bin: Option<Path>, cacheDir: Path, targetDir: Path, useRelativePaths: bool)

  const TargetName: Component := Utf8("target")
  const CargoTomlName: Component := Utf8("Cargo.toml")
  const BuildShName: Component := Utf8("build.sh")
  const SrcName: Component := Utf8("src")
  const MainRsName: Component := Utf8("main.rs")
  const ViewerName: Component := Utf8("viewer")

  const DirPlaceholder := "${dir}"
  const NamePlaceholder := "${name}"

  /** Where `build` expects the binary: `target_dir/target/debug/rapp_runner`. */
  function Artifact(targetDir: Path): (p: Path)
    ensures |p| == |targetDir| + 3 && p[|p| - 1] == RappRunnerName && p[..|targetDir|] == targetDir
  {
    targetDir + [TargetName, DebugName, RappRunnerName]
  }

  function CargoTomlPath(cacheDir: Path): Path
  {
    cacheDir + [CargoTomlName]
  }

  function BuildShPath(cacheDir: Path): Path
  {
    cacheDir + [BuildShName]
  }

  function SrcDir(cacheDir: Path): Path
  {
    cacheDir + [SrcName]
  }

  function MainRsPath(cacheDir: Path): Path
  {
    SrcDir(cacheDir) + [MainRsName]
  }

  /** `viewer_file_path`: `dir/viewer`. */
  function ViewerFilePath(dir: Path): (p: Path)
    ensures p != [] && Parent(p) == dir && p[|p| - 1] == ViewerName
  {
    dir + [ViewerName]
  }

  /** The template `new` starts from. */
  function ManifestTemplate(tpl: Templates, useRelativePaths: bool): string
  {
    if useRelativePaths then tpl.cargoRelativePaths else tpl.cargoToml
  }

  /** Every `${dir}` replaced by the app directory, then every `${name}` by the crate name. */
  function Manifest(template: string, appDir: string, name: string): string
  {
    ReplaceAll(ReplaceAll(template, DirPlaceholder, appDir), NamePlaceholder, name)
  }

  /** The text of `build.sh`. */
  function BuildScript(cacheDir: Path): string
  {
    "cd " + (DebugQuoted(cacheDir) + ("\n" + "cargo build"))
  }

  /**
   * `build(&mut self)`: delete a stale binary, insist on `build.sh`, run
   * `chmod +x` and the script (a non-zero exit is only reported), then succeed
   * exactly when the binary is there, recording it in `bin`.
   */
  function BuildSpec(v: ViewerRecord, e: Entries, tools: Tools): (Result<()>, ViewerRecord, Entries)
  {
    var bin := Artifact(v.targetDir);
    var (r0, e0) := if Exists(e, bin) then RemoveFileSpec(e, bin) else (Ok(()), e);
    if r0.Err? then (Err(r0.error), v, e0)
    else
      var buildSh := BuildShPath(v.cacheDir);
      if !Exists(e0, buildSh) then (Err(Rapp(Other("File not found: " + DebugQuoted(buildSh)))), v, e0)
      else if tools.chmod.NotSpawned? || tools.script.NotSpawned? then (Err(Io(SpawnFailed)), v, e0)
      else
        var e1 := if tools.artifact.Some? then e0[bin := File(tools.artifact.value)] else e0;
        if Exists(e1, bin) then (Ok(()), v.(bin := Some(bin)), e1)
        else (Err(Rapp(Other("Build did not generate a binary at " + DebugQuoted(bin)))), v, e1)
  }

  /** The sources of the generated project: `src/`, created when missing, and `src/main.rs`. */
  function SourcesSpec(e: Entries, cacheDir: Path, mainRs: string): (Result<()>, Entries)
  {
    var (w, e1) := EnsureDirSpec(e, SrcDir(cacheDir));
    if w.Err? then (w, e1) else WriteSpec(e1, MainRsPath(cacheDir), mainRs)
  }

  /** `build.sh`, then the sources. */
  function ScriptAndSourcesSpec(e: Entries, cacheDir: Path, mainRs: string): (Result<()>, Entries)
  {
    var (w, e1) := WriteSpec(e, BuildShPath(cacheDir), BuildScript(cacheDir));
    if w.Err? then (w, e1) else SourcesSpec(e1, cacheDir, mainRs)
  }

  /**
   * The generating half of `Viewer::new(config)`: the app directory as text,
   * then the manifest, `build.sh`, `src/` and `src/main.rs` written into the
   * scratch directory, stopping at the first failure.
   */
  function GenerateSpec(e: Entries, config: Config, tpl: Templates): (Result<()>, Entries)
  {
    match ToStr(config.appDir)
    case None => (Err(Rapp(Other("could not convert path to string"))), e)
    case Some(appDir) =>
      var content := Manifest(ManifestTemplate(tpl, config.useRelativePaths), appDir, config.name);
      var (w, e1) := WriteSpec(e, CargoTomlPath(config.scratchDir), content);
      if w.Err? then (w, e1) else ScriptAndSourcesSpec(e1, config.scratchDir, tpl.mainRs)
  }

  /** `Viewer::new(config)`: a record with no binary, the generated project, then `build`. */
  function NewSpec(e: Entries, config: Config, tpl: Templates, tools: Tools): (Result<ViewerRecord>, Entries)
  {
    var v := ViewerRecord(None, config.scratchDir, config.targetDir, config.useRelativePaths);
    var (g, e1) := GenerateSpec(e, config, tpl);
    if g.Err? then (Err(g.error), e1)
    else
      var (b, built, e2) := BuildSpec(v, e1, tools);
      if b.Err? then (Err(b.error), e2) else (Ok(built), e2)
  }

  predicate RecordUtf8(v: ViewerRecord)
  {
    (v.bin.Some? ==> IsUtf8(v.bin.value)) && IsUtf8(v.cacheDir) && IsUtf8(v.targetDir)
  }

  function BinText(bin: Option<Path>): string
    requires bin.Some? ==> IsUtf8(bin.value)
  {
    if bin.None? then OptPathText(None) else OptPathText(Some(bin.value))
  }

  function ViewerText(v: ViewerRecord): string
    requires RecordUtf8(v)
  {
    "(bin:" + (BinText(v.bin) +
    (",cache_dir:" + (PathText(v.cacheDir) +
    (",target_dir:" + (PathText(v.targetDir) +
    (",use_relative_paths:" + (BoolText(v.useRelativePaths) + ")")))))))
  }

  /** `ron::to_string`: fails exactly when a path is not UTF-8. */
  function SerializeViewer(v: ViewerRecord): (r: Option<string>)
    ensures r.Some? <==> RecordUtf8(v)
  {
    if RecordUtf8(v) then Some(ViewerText(v)) else None
  }

  function ParseViewer(t: string): Option<ViewerRecord>
  {
    var t1 :- Expect("(bin:", t);
    var (bin, t2) :- ParseOptPath(t1);
    var t3 :- Expect(",cache_dir:", t2);
    var (cacheDir, t4) :- ParsePath(t3);
    var t5 :- Expect(",target_dir:", t4);
    var (targetDir, t6) :- ParsePath(t5);
    var t7 :- Expect(",use_relative_paths:", t6);
    var (useRelativePaths, t8) :- ParseBool(t7);
    var t9 :- Expect(")", t8);
    var b: Option<Path> := if bin.None? then None else Some(bin.value);
    if t9 == [] then Some(ViewerRecord(b, cacheDir, targetDir, useRelativePaths)) else None
  }

  /** `Viewer::read_from`: best effort, `None` on any read or parse failure. */
  function ReadViewer(e: Entries, dir: Path): Option<ViewerRecord>
  {
    var s :- ReadToString(e, ViewerFilePath(dir));
    ParseViewer(s)
  }

  /** `Viewer::write_to`. */
  function WriteViewerSpec(e: Entries, v: ViewerRecord, dir: Path): (Result<()>, Entries)
  {
    match SerializeViewer(v)
    case None => (Err(SerializeFailed), e)
    case Some(s) => WriteSpec(e, ViewerFilePath(dir), s)
  }

  /** `Viewer::read_or_build(config)`: the cached viewer unless `rebuild`, else a new one, saved. */
  function ReadOrBuildSpec(e: Entries, config: Config, tpl: Templates, tools: Tools): (Result<ViewerRecord>, Entries)
  {
    var cached := if config.rebuild then None else ReadViewer(e, config.scratchDir);
    if cached.Some? then (Ok(cached.value), e)
    else
      var (n, e1) := NewSpec(e, config, tpl, tools);
      if n.Err? then (Err(n.error), e1)
      else
        var (w, e2) := WriteViewerSpec(e1, n.value, config.scratchDir);
        if w.Err? then (Err(w.error), e2) else (Ok(n.value), e2)
  }

  /** Paths that end in different components are different. */
  lemma LastDiffers(p: Path, q: Path)
    requires p != [] && q != [] && p[|p| - 1] != q[|q| - 1]
    ensures p != q
  {
  }

  /** Reading back the text of a viewer record gives the record. */
  lemma ViewerRoundTrip(v: ViewerRecord)
    requires RecordUtf8(v)
    ensures ParseViewer(ViewerText(v)) == Some(v)
  {
    var tail8 := ")";
    var tail7 := BoolText(v.useRelativePaths) + tail8;
    var tail6 := ",use_relative_paths:" + tail7;
    var tail5 := PathText(v.targetDir) + tail6;
    var tail4 := ",target_dir:" + tail5;
    var tail3 := PathText(v.cacheDir) + tail4;
    var tail2 := ",cache_dir:" + tail3;
    var tail1 := BinText(v.bin) + tail2;
    var bin: Option<Utf8Path> := None;
    if v.bin.Some? {
      bin := Some(v.bin.value);
    }
    assert BinText(v.bin) == OptPathText(bin);
    ExpectLiteral("(bin:", tail1);
    OptPathRoundTrip(bin, tail2);
    ExpectLiteral(",cache_dir:", tail3);
    PathRoundTrip(v.cacheDir, tail4);
    ExpectLiteral(",target_dir:", tail5);
    PathRoundTrip(v.targetDir, tail6);
    ExpectLiteral(",use_relative_paths:", tail7);
    BoolRoundTrip(v.useRelativePaths, tail8);
    ExpectLiteral(")", "");
    assert tail8 == ")" + "";
  }

  /** A written viewer is what `read_from` returns; the write succeeds exactly when the record serialises and `dir/viewer` can be written. */
  lemma WriteThenReadViewer(e: Entries, v: ViewerRecord, dir: Path)
    ensures WriteViewerSpec(e, v, dir).0.Ok? <==>
      RecordUtf8(v) && !IsDir(e, ViewerFilePath(dir)) && IsDir(e, dir)
    ensures WriteViewerSpec(e, v, dir).0.Ok? ==> ReadViewer(WriteViewerSpec(e, v, dir).1, dir) == Some(v)
  {
    if SerializeViewer(v).Some? {
      WriteSucceeds(e, ViewerFilePath(dir), ViewerText(v));
      ViewerRoundTrip(v);
    }
  }

  /** The manifest is the template cut at each `${dir}`, joined with the app directory, then cut at each `${name}` and joined with the crate name. */
  lemma ManifestPieces(template: string, appDir: string, name: string)
    ensures Manifest(template, appDir, name) ==
      Join(Pieces(Join(Pieces(template, DirPlaceholder), appDir), NamePlaceholder), name)
  {
    ReplaceIsJoin(template, DirPlaceholder, appDir);
    ReplaceIsJoin(ReplaceAll(template, DirPlaceholder, appDir), NamePlaceholder, name);
  }

  /** For a UTF-8 scratch directory, `build.sh` changes into its quoted text and runs `cargo build`. */
  lemma BuildScriptText(cacheDir: Utf8Path)
    ensures BuildScript(cacheDir) == "cd " + PathQuote(Display(cacheDir)) + "\n" + "cargo build"
    ensures '\'' !in Display(cacheDir) ==> BuildScript(cacheDir) == "cd " + Quote(Display(cacheDir)) + "\n" + "cargo build"
  {
    DebugQuotedUtf8(cacheDir);
  }

  /** `build` changes nothing but the artifact path. */
  lemma BuildFrame(v: ViewerRecord, e: Entries, tools: Tools, q: Path)
    requires q != Artifact(v.targetDir)
    ensures SameAt(e, BuildSpec(v, e, tools).2, q)
  {
    RemoveFileFrame(e, Artifact(v.targetDir), q);
  }

  /**
   * `build` succeeds exactly when the artifact path is not a directory,
   * `build.sh` exists, both commands could be started and the script left a
   * binary; exit codes play no part. On success `bin` records the artifact;
   * on failure the record is unchanged.
   */
  lemma BuildOutcome(v: ViewerRecord, e: Entries, tools: Tools)
    ensures var bin := Artifact(v.targetDir);
      BuildSpec(v, e, tools).0.Ok? <==>
        !IsDir(e, bin) && Exists(e, BuildShPath(v.cacheDir)) &&
        tools.chmod.Exited? && tools.script.Exited? && tools.artifact.Some?
    ensures BuildSpec(v, e, tools).0.Ok? ==>
      BuildSpec(v, e, tools).1 == v.(bin := Some(Artifact(v.targetDir))) &&
      BuildSpec(v, e, tools).2 == e[Artifact(v.targetDir) := File(tools.artifact.value)]
    ensures BuildSpec(v, e, tools).0.Err? ==> BuildSpec(v, e, tools).1 == v
  {
    var bin := Artifact(v.targetDir);
    LastDiffers(BuildShPath(v.cacheDir), bin);
    RemoveFileFrame(e, bin, BuildShPath(v.cacheDir));
    if Exists(e, bin) && !IsDir(e, bin) && tools.artifact.Some? {
      assert (e - {bin})[bin := File(tools.artifact.value)] == e[bin := File(tools.artifact.value)];
    }
  }

  /** The exit codes of chmod and of the script do not change what `build` does. */
  lemma BuildIgnoresExitCodes(v: ViewerRecord, e: Entries, a: int, b: int, c: int, d: int, artifact: Option<string>)
    ensures BuildSpec(v, e, Tools(Exited(a), Exited(b), artifact)) == BuildSpec(v, e, Tools(Exited(c), Exited(d), artifact))
  {
  }

  /**
   * Without `build.sh`, `build` fails with `File not found` after removing
   * a stale binary and before running anything, whatever the tools would do.
   */
  lemma BuildMissingScript(v: ViewerRecord, e: Entries, tools: Tools)
    requires !IsDir(e, Artifact(v.targetDir)) && !Exists(e, BuildShPath(v.cacheDir))
    ensures BuildSpec(v, e, tools) ==
      (Err(Rapp(Other("File not found: " + DebugQuoted(BuildShPath(v.cacheDir))))), v, e - {Artifact(v.targetDir)})
  {
    var bin := Artifact(v.targetDir);
    LastDiffers(BuildShPath(v.cacheDir), bin);
    if !Exists(e, bin) {
      assert e - {bin} == e;
    }
  }

  /** A binary left by an earlier build never counts: if the script leaves none, `build` fails and the old one is gone. */
  lemma BuildStaleBinary(v: ViewerRecord, e: Entries, tools: Tools)
    requires Artifact(v.targetDir) in e && e[Artifact(v.targetDir)].File?
    requires tools.artifact.None?
    ensures BuildSpec(v, e, tools).0.Err?
    ensures Artifact(v.targetDir) !in BuildSpec(v, e, tools).2
  {
  }

  /** Generating the project changes nothing but its four paths. */
  lemma GenerateFrame(e: Entries, config: Config, tpl: Templates, q: Path)
    requires q != CargoTomlPath(config.scratchDir) && q != BuildShPath(config.scratchDir)
    requires q != SrcDir(config.scratchDir) && q != MainRsPath(config.scratchDir)
    ensures SameAt(e, GenerateSpec(e, config, tpl).1, q)
  {
    var c := config.scratchDir;
    if IsUtf8(config.appDir) {
      var content := Manifest(ManifestTemplate(tpl, config.useRelativePaths), Display(config.appDir), config.name);
      var (w1, e1) := WriteSpec(e, CargoTomlPath(c), content);
      WriteFrame(e, CargoTomlPath(c), content, q);
      ScriptAndSourcesFrame(e1, c, tpl.mainRs, q);
    }
  }

  lemma ScriptAndSourcesFrame(e: Entries, c: Path, mainRs: string, q: Path)
    requires q != BuildShPath(c) && q != SrcDir(c) && q != MainRsPath(c)
    ensures SameAt(e, ScriptAndSourcesSpec(e, c, mainRs).1, q)
  {
    var (w2, e2) := WriteSpec(e, BuildShPath(c), BuildScript(c));
    WriteFrame(e, BuildShPath(c), BuildScript(c), q);
    var (w3, e3) := EnsureDirSpec(e2, SrcDir(c));
    EnsureDirFrame(e2, SrcDir(c), q);
    WriteFrame(e3, MainRsPath(c), mainRs, q);
  }

  /**
   * A generated project holds the manifest made from the template that
   * `use_relative_paths` selects, `build.sh` with its exact text, the
   * directory `src` and `src/main.rs` copied from its template.
   */
  lemma GeneratedFiles(e: Entries, config: Config, tpl: Templates)
    requires GenerateSpec(e, config, tpl).0.Ok?
    ensures IsUtf8(config.appDir)
    ensures var after := GenerateSpec(e, config, tpl).1;
      var c := config.scratchDir;
      && ReadToString(after, CargoTomlPath(c)) ==
           Some(Manifest(if config.useRelativePaths then tpl.cargoRelativePaths else tpl.cargoToml,
                         Display(config.appDir), config.name))
      && ReadToString(after, BuildShPath(c)) == Some(BuildScript(c))
      && IsDir(after, SrcDir(c))
      && ReadToString(after, MainRsPath(c)) == Some(tpl.mainRs)
  {
    var c := config.scratchDir;
    var content := Manifest(ManifestTemplate(tpl, config.useRelativePaths), Display(config.appDir), config.name);
    var (w1, e1) := WriteSpec(e, CargoTomlPath(c), content);
    ScriptAndSourcesResult(e1, c, tpl.mainRs);
  }

  /** After `src/` and `src/main.rs`, both are there, and the manifest and `build.sh` are as they were. */
  lemma SourcesResult(e: Entries, c: Path, mainRs: string)
    requires SourcesSpec(e, c, mainRs).0.Ok?
    ensures var after := SourcesSpec(e, c, mainRs).1;
      && IsDir(after, SrcDir(c)) && ReadToString(after, MainRsPath(c)) == Some(mainRs)
      && SameAt(e, after, CargoTomlPath(c)) && SameAt(e, after, BuildShPath(c))
  {
    var (w3, e3) := EnsureDirSpec(e, SrcDir(c));
    GeneratedPathsDistinct(c);
    EnsureDirFrame(e, SrcDir(c), CargoTomlPath(c));
    EnsureDirFrame(e, SrcDir(c), BuildShPath(c));
    WriteFrame(e3, MainRsPath(c), mainRs, CargoTomlPath(c));
    WriteFrame(e3, MainRsPath(c), mainRs, BuildShPath(c));
    WriteFrame(e3, MainRsPath(c), mainRs, SrcDir(c));
  }

  /** After `build.sh` and the sources, all three are there with their contents, and the manifest is as it was. */
  lemma ScriptAndSourcesResult(e: Entries, c: Path, mainRs: string)
    requires ScriptAndSourcesSpec(e, c, mainRs).0.Ok?
    ensures var after := ScriptAndSourcesSpec(e, c, mainRs).1;
      && ReadToString(after, BuildShPath(c)) == Some(BuildScript(c))
      && IsDir(after, SrcDir(c)) && ReadToString(after, MainRsPath(c)) == Some(mainRs)
      && SameAt(e, after, CargoTomlPath(c))
  {
    var (w2, e2) := WriteSpec(e, BuildShPath(c), BuildScript(c));
    GeneratedPathsDistinct(c);
    WriteFrame(e, BuildShPath(c), BuildScript(c), CargoTomlPath(c));
    SourcesResult(e2, c, mainRs);
  }

  /** The four generated paths are pairwise different, and `src/main.rs` sits in `src`. */
  lemma GeneratedPathsDistinct(c: Path)
    ensures CargoTomlPath(c) != BuildShPath(c) && CargoTomlPath(c) != SrcDir(c) && BuildShPath(c) != SrcDir(c)
    ensures MainRsPath(c) != CargoTomlPath(c) && MainRsPath(c) != BuildShPath(c) && MainRsPath(c) != SrcDir(c)
    ensures Parent(MainRsPath(c)) == SrcDir(c)
  {
    LastDiffers(CargoTomlPath(c), BuildShPath(c));
    LastDiffers(CargoTomlPath(c), SrcDir(c));
    LastDiffers(BuildShPath(c), SrcDir(c));
    assert |MainRsPath(c)| != |CargoTomlPath(c)|;
    assert Parent(MainRsPath(c)) == SrcDir(c);
  }

  /** An app directory that is not UTF-8 fails `new` before anything is written. */
  lemma NewNotUtf8(e: Entries, config: Config, tpl: Templates, tools: Tools)
    requires !IsUtf8(config.appDir)
    ensures NewSpec(e, config, tpl, tools) == (Err(Rapp(Other("could not convert path to string"))), e)
  {
  }

  /**
   * A new viewer copies the scratch directory, the target directory and
   * `use_relative_paths` from the config and, once built, records the
   * artifact as its binary, which exists.
   */
  lemma NewRecord(e: Entries, config: Config, tpl: Templates, tools: Tools)
    requires NewSpec(e, config, tpl, tools).0.Ok?
    ensures NewSpec(e, config, tpl, tools).0.value ==
      ViewerRecord(Some(Artifact(config.targetDir)), config.scratchDir, config.targetDir, config.useRelativePaths)
    ensures Exists(NewSpec(e, config, tpl, tools).1, Artifact(config.targetDir))
  {
    var v := ViewerRecord(None, config.scratchDir, config.targetDir, config.useRelativePaths);
    BuildOutcome(v, GenerateSpec(e, config, tpl).1, tools);
  }

  /** `new` changes nothing but the four generated paths and the artifact path. */
  lemma NewFrame(e: Entries, config: Config, tpl: Templates, tools: Tools, q: Path)
    requires q != CargoTomlPath(config.scratchDir) && q != BuildShPath(config.scratchDir)
    requires q != SrcDir(config.scratchDir) && q != MainRsPath(config.scratchDir)
    requires q != Artifact(config.targetDir)
    ensures SameAt(e, NewSpec(e, config, tpl, tools).1, q)
  {
    var v := ViewerRecord(None, config.scratchDir, config.targetDir, config.useRelativePaths);
    GenerateFrame(e, config, tpl, q);
    BuildFrame(v, GenerateSpec(e, config, tpl).1, tools, q);
  }

  /** `dir/viewer` is none of the paths `new` touches. */
  lemma ViewerFileUntouched(config: Config)
    ensures var f := ViewerFilePath(config.scratchDir);
      f != CargoTomlPath(config.scratchDir) && f != BuildShPath(config.scratchDir) &&
      f != SrcDir(config.scratchDir) && f != MainRsPath(config.scratchDir) &&
      f != Artifact(config.targetDir)
  {
    var c := config.scratchDir;
    LastDiffers(ViewerFilePath(c), CargoTomlPath(c));
    LastDiffers(ViewerFilePath(c), BuildShPath(c));
    LastDiffers(ViewerFilePath(c), SrcDir(c));
    LastDiffers(ViewerFilePath(c), Artifact(config.targetDir));
    assert |MainRsPath(c)| != |ViewerFilePath(c)|;
  }

  /** Without `rebuild`, a cached viewer is returned as it is, and nothing is generated, built or written. */
  lemma ReadOrBuildCached(e: Entries, config: Config, tpl: Templates, tools: Tools)
    requires !config.rebuild && ReadViewer(e, config.scratchDir).Some?
    ensures ReadOrBuildSpec(e, config, tpl, tools) == (Ok(ReadViewer(e, config.scratchDir).value), e)
  {
  }

  /**
   * When a new viewer is needed and `new` fails, its error is the result and
   * no viewer file is written.
   */
  lemma ReadOrBuildNewFails(e: Entries, config: Config, tpl: Templates, tools: Tools)
    requires config.rebuild || ReadViewer(e, config.scratchDir).None?
    requires NewSpec(e, config, tpl, tools).0.Err?
    ensures ReadOrBuildSpec(e, config, tpl, tools).0 == Err(NewSpec(e, config, tpl, tools).0.error)
    ensures SameAt(e, ReadOrBuildSpec(e, config, tpl, tools).1, ViewerFilePath(config.scratchDir))
  {
    ViewerFileUntouched(config);
    NewFrame(e, config, tpl, tools, ViewerFilePath(config.scratchDir));
  }

  /**
   * With `rebuild`, or with nothing cached, the cache is ignored: the result
   * is the error of `new`, else the error of `write_to`, else the record of
   * the freshly built viewer. Saving it fails exactly when it does not
   * serialise or `scratch_dir/viewer` cannot be written.
   */
  lemma ReadOrBuildRebuilds(e: Entries, config: Config, tpl: Templates, tools: Tools)
    requires config.rebuild || ReadViewer(e, config.scratchDir).None?
    ensures var built := NewSpec(e, config, tpl, tools);
      var record := ViewerRecord(Some(Artifact(config.targetDir)), config.scratchDir, config.targetDir, config.useRelativePaths);
      var saved := WriteViewerSpec(built.1, record, config.scratchDir);
      ReadOrBuildSpec(e, config, tpl, tools) ==
        if built.0.Err? then (Err(built.0.error), built.1)
        else if saved.0.Err? then (Err(saved.0.error), saved.1)
        else (Ok(record), saved.1)
    ensures var built := NewSpec(e, config, tpl, tools);
      var record := ViewerRecord(Some(Artifact(config.targetDir)), config.scratchDir, config.targetDir, config.useRelativePaths);
      built.0.Ok? ==> (ReadOrBuildSpec(e, config, tpl, tools).0.Ok? <==>
        RecordUtf8(record) && !IsDir(built.1, ViewerFilePath(config.scratchDir)) && IsDir(built.1, config.scratchDir))
  {
    var built := NewSpec(e, config, tpl, tools);
    if built.0.Ok? {
      NewRecord(e, config, tpl, tools);
      WriteThenReadViewer(built.1, built.0.value, config.scratchDir);
    }
  }

  /** Whatever `read_or_build` returns is then what `read_from` finds in the scratch directory. */
  lemma ReadOrBuildCaches(e: Entries, config: Config, tpl: Templates, tools: Tools)
    requires ReadOrBuildSpec(e, config, tpl, tools).0.Ok?
    ensures ReadViewer(ReadOrBuildSpec(e, config, tpl, tools).1, config.scratchDir) ==
      Some(ReadOrBuildSpec(e, config, tpl, tools).0.value)
  {
    var cached := if config.rebuild then None else ReadViewer(e, config.scratchDir);
    if cached.None? {
      var (n, e1) := NewSpec(e, config, tpl, tools);
      WriteThenReadViewer(e1, n.value, config.scratchDir);
    }
  }

  /** `read_or_build` changes nothing but the generated project, the artifact and `scratch_dir/viewer`. */
  lemma ReadOrBuildFrame(e: Entries, config: Config, tpl: Templates, tools: Tools, q: Path)
    requires q != CargoTomlPath(config.scratchDir) && q != BuildShPath(config.scratchDir)
    requires q != SrcDir(config.scratchDir) && q != MainRsPath(config.scratchDir)
    requires q != Artifact(config.targetDir) && q != ViewerFilePath(config.scratchDir)
    ensures SameAt(e, ReadOrBuildSpec(e, config, tpl, tools).1, q)
  {
    var cached := if config.rebuild then None else ReadViewer(e, config.scratchDir);
    if cached.None? {
      var (n, e1) := NewSpec(e, config, tpl, tools);
      NewFrame(e, config, tpl, tools, q);
      if n.Ok? {
        WriteViewerFrame(e1, n.value, config.scratchDir, q);
      }
    }
  }

  /** `write_to` changes nothing but `dir/viewer`. */
  lemma WriteViewerFrame(e: Entries, v: ViewerRecord, dir: Path, q: Path)
    requires q != ViewerFilePath(dir)
    ensures SameAt(e, WriteViewerSpec(e, v, dir).1, q)
  {
    if RecordUtf8(v) {
      WriteFrame(e, ViewerFilePath(dir), ViewerText(v), q);
    }
  }

  class Viewer {
    var bin: Option<Path>
    var cacheDir: Path
    var targetDir: Path
    var useRelativePaths: bool

    function Record(): ViewerRecord
      reads this
    {
      ViewerRecord(bin, cacheDir, targetDir, useRelativePaths)
    }

    constructor (r: ViewerRecord)
      ensures Record() == r
    {
      bin := r.bin;
      cacheDir := r.cacheDir;
      targetDir := r.targetDir;
      useRelativePaths := r.useRelativePaths;
    }

    /**
     * `run`: refuses a viewer without a binary or whose binary is gone, and
     * otherwise succeeds whatever exit status the launched binary returns.
     */
    method Run(fs: FileSystem, launch: Exit) returns (r: Result<()>)
      ensures bin.None? ==> r == Err(Rapp(Other("Viewer has not yet been build")))
      ensures bin.Some? && !Exists(fs.entries, bin.value) ==>
        r == Err(Rapp(Other("Viewer binary not found at " + DebugQuoted(bin.value))))
      ensures bin.Some? && Exists(fs.entries, bin.value) && launch.NotSpawned? ==> r == Err(Io(SpawnFailed))
      ensures r.Ok? <==> bin.Some? && Exists(fs.entries, bin.value) && launch.Exited?
    {
      if bin.None? {
        return Err(Rapp(Other("Viewer has not yet been build")));
      }
      var path := bin.value;
      if !Exists(fs.entries, path) {
        return Err(Rapp(Other("Viewer binary not found at " + DebugQuoted(path))));
      }
      if launch.NotSpawned? {
        return Err(Io(SpawnFailed));
      }
      // the exit status is only reported
      r := Ok(());
    }

    method Build(fs: FileSystem, tools: Tools) returns (r: Result<()>)
      modifies this, fs
      ensures (r, Record(), fs.entries) == BuildSpec(old(Record()), old(fs.entries), tools)
    {
      var path: Path := targetDir + [TargetName];
      path := path + [DebugName];
      path := path + [RappRunnerName];
      assert path == Artifact(targetDir);

      // remove old binary
      if Exists(fs.entries, path) {
        var rm := fs.RemoveFile(path);
        if rm.Err? {
          return Err(rm.error);
        }
      }

      var buildSh: Path := cacheDir + [BuildShName];
      if !Exists(fs.entries, buildSh) {
        return Err(Rapp(Other("File not found: " + DebugQuoted(buildSh))));
      }

      // chmod +x build.sh, then build.sh; a non-zero exit is only reported
      if tools.chmod.NotSpawned? {
        return Err(Io(SpawnFailed));
      }
      if tools.script.NotSpawned? {
        return Err(Io(SpawnFailed));
      }
      fs.Produce(path, tools.artifact);

      // Check if everything went well
      if Exists(fs.entries, path) {
        bin := Some(path);
        r := Ok(());
      } else {
        r := Err(Rapp(Other("Build did not generate a binary at " + DebugQuoted(path))));
      }
    }

    /** Writes the project `new` generates. */
    static method Generate(config: Config, tpl: Templates, fs: FileSystem) returns (r: Result<()>)
      modifies fs
      ensures (r, fs.entries) == GenerateSpec(old(fs.entries), config, tpl)
    {
      var cacheDir := config.scratchDir;

      // Save Cargo.toml
      var cargoToml: Path := cacheDir + [CargoTomlName];
      var appDir := ToStr(config.appDir);
      if appDir.None? {
        return Err(Rapp(Other("could not convert path to string")));
      }
      var content := ManifestTemplate(tpl, config.useRelativePaths);
      content := ReplaceAll(content, DirPlaceholder, appDir.value);
      content := ReplaceAll(content, NamePlaceholder, config.name);
      r := fs.Write(cargoToml, content);
      if r.Err? {
        return;
      }
      ghost var e1 := fs.entries;

      // Create and save build.sh
      var buildShContent := "cd ";
      buildShContent := buildShContent + (DebugQuoted(cacheDir) + "\n");
      buildShContent := buildShContent + "cargo build";
      assert buildShContent == BuildScript(cacheDir);
      var buildSh: Path := cacheDir + [BuildShName];
      r := fs.Write(buildSh, buildShContent);
      if r.Err? {
        assert (r, fs.entries) == ScriptAndSourcesSpec(e1, cacheDir, tpl.mainRs);
        return;
      }
      ghost var e2 := fs.entries;

      // Create src dir (to place main.rs)
      var srcDir: Path := cacheDir + [SrcName];
      r := fs.EnsureDir(srcDir);
      if r.Err? {
        assert (r, fs.entries) == SourcesSpec(e2, cacheDir, tpl.mainRs);
        return;
      }

      // Save main.rs
      var mainRs: Path := srcDir + [MainRsName];
      r := fs.Write(mainRs, tpl.mainRs);
      assert (r, fs.entries) == SourcesSpec(e2, cacheDir, tpl.mainRs);
    }

    static method New(config: Config, tpl: Templates, tools: Tools, fs: FileSystem) returns (r: Result<Viewer>)
      modifies fs
      ensures fs.entries == NewSpec(old(fs.entries), config, tpl, tools).1
      ensures r.Ok? <==> NewSpec(old(fs.entries), config, tpl, tools).0.Ok?
      ensures r.Err? ==> r.error == NewSpec(old(fs.entries), config, tpl, tools).0.error
      ensures r.Ok? ==> fresh(r.value) && r.value.Record() == NewSpec(old(fs.entries), config, tpl, tools).0.value
    {
      var viewer := new Viewer(ViewerRecord(None, config.scratchDir, config.targetDir, config.useRelativePaths));
      var g := Generate(config, tpl, fs);
      if g.Err? {
        return Err(g.error);
      }
      // Build
      var b := viewer.Build(fs, tools);
      if b.Err? {
        return Err(b.error);
      }
      r := Ok(viewer);
    }

    static method ReadFrom(dir: Path, fs: FileSystem) returns (r: Option<Viewer>)
      ensures r.Some? <==> ReadViewer(fs.entries, dir).Some?
      ensures r.Some? ==> fresh(r.value) && r.value.Record() == ReadViewer(fs.entries, dir).value
    {
      var file := ViewerFilePath(dir);
      var s := ReadToString(fs.entries, file);
      if s.None? {
        return None;
      }
      var v := ParseViewer(s.value);
      if v.None? {
        return None;
      }
      var viewer := new Viewer(v.value);
      r := Some(viewer);
    }

    method WriteTo(dir: Path, fs: FileSystem) returns (r: Result<()>)
      modifies fs
      ensures (r, fs.entries) == WriteViewerSpec(old(fs.entries), Record(), dir)
    {
      var file := ViewerFilePath(dir);
      var s := SerializeViewer(Record());
      if s.None? {
        return Err(SerializeFailed);
      }
      r := fs.Write(file, s.value);
    }

    static method ReadOrBuild(config: Config, tpl: Templates, tools: Tools, fs: FileSystem) returns (r: Result<Viewer>)
      modifies fs
      ensures fs.entries == ReadOrBuildSpec(old(fs.entries), config, tpl, tools).1
      ensures r.Ok? <==> ReadOrBuildSpec(old(fs.entries), config, tpl, tools).0.Ok?
      ensures r.Err? ==> r.error == ReadOrBuildSpec(old(fs.entries), config, tpl, tools).0.error
      ensures r.Ok? ==> fresh(r.value) && r.value.Record() == ReadOrBuildSpec(old(fs.entries), config, tpl, tools).0.value
    {
      if !config.rebuild {
        var cached := ReadFrom(config.scratchDir, fs);
        if cached.Some? {
          // Re-use generated viewer from previous run
          return Ok(cached.value);
        }
      }
      var n := New(config, tpl, tools, fs);
      if n.Err? {
        return Err(n.error);
      }
      var viewer := n.value;
      var w := viewer.WriteTo(config.scratchDir, fs);
      if w.Err? {
        return Err(w.error);
      }
      r := Ok(viewer);
    }
  }
}
