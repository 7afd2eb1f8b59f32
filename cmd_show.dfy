/**
 * `Show::run` of cargo-rapp/src/cmd_show.rs: reuse the config cached in the
 * `rapp_runner` scratch directory or create and save one there, then hand it
 * to the viewer step, whose result is discarded.
 */
module CmdShow {
  import opened Wrappers
  import opened Paths
  import opened Errors
  import opened Fs
  import opened Workspace
  import opened Configs
  import opened Viewers

  /** The config step: the cached config if `read_from` finds one, else `create_and_save` in the same directory. */
  function ObtainConfig(e: Entries, scratch: Path, appDir: Path, meta: Option<Metadata>): (Result<Config>, Entries)
  {
    match Configs.ReadFrom(e, scratch)
    case Some(config) => (Ok(config), e)
    case None => CreateAndSaveSpec(e, scratch, appDir, meta)
  }

  /**
   * `Show::run`, with the scratch directory `scratch::path("rapp_runner")`,
   * the working directory, the metadata answer, the templates and the build
   * tools as inputs. It fails exactly when the config step fails.
   */
  function Run(e: Entries, scratch: Path, appDir: Path, meta: Option<Metadata>, tpl: Templates, tools: Tools): (r: (Result<()>, Entries))
    ensures r.0.Ok? <==> ObtainConfig(e, scratch, appDir, meta).0.Ok?
  {
    var (config, e1) := ObtainConfig(e, scratch, appDir, meta);
    if config.Err? then (Err(config.error), e1)
    else
      var (_, e2) := ReadOrBuildSpec(e1, config.value, tpl, tools);
      (Ok(()), e2)
  }

  /** A cached config is used as it is: the metadata and the working directory play no part. */
  lemma CachedConfigUsed(e: Entries, scratch: Path, appDir: Path, meta: Option<Metadata>, tpl: Templates, tools: Tools)
    requires Configs.ReadFrom(e, scratch).Some?
    ensures ObtainConfig(e, scratch, appDir, meta) == (Ok(Configs.ReadFrom(e, scratch).value), e)
    ensures Run(e, scratch, appDir, meta, tpl, tools) ==
      (Ok(()), ReadOrBuildSpec(e, Configs.ReadFrom(e, scratch).value, tpl, tools).1)
  {
  }

  /**
   * Without a cached config, `create_and_save` runs on the same scratch
   * directory, and the config it makes points the viewer step at that
   * directory too.
   */
  lemma MissingConfigCreated(e: Entries, scratch: Path, appDir: Path, meta: Option<Metadata>)
    requires Configs.ReadFrom(e, scratch).None?
    ensures ObtainConfig(e, scratch, appDir, meta) == CreateAndSaveSpec(e, scratch, appDir, meta)
    ensures ObtainConfig(e, scratch, appDir, meta).0.Ok? ==>
      ObtainConfig(e, scratch, appDir, meta).0.value.scratchDir == scratch &&
      !ObtainConfig(e, scratch, appDir, meta).0.value.rebuild
  {
    if CreateAndSaveSpec(e, scratch, appDir, meta).0.Ok? {
      CreateAndSaveFields(e, scratch, appDir, meta.value);
    }
  }

  /** A failing config step ends the run with its error, before the viewer step touches anything. */
  lemma ConfigErrorStops(e: Entries, scratch: Path, appDir: Path, meta: Option<Metadata>, tpl: Templates, tools: Tools)
    requires ObtainConfig(e, scratch, appDir, meta).0.Err?
    ensures Run(e, scratch, appDir, meta, tpl, tools) ==
      (Err(ObtainConfig(e, scratch, appDir, meta).0.error), ObtainConfig(e, scratch, appDir, meta).1)
  {
  }

  /** Once a config is obtained the run succeeds, even when the viewer step fails. */
  lemma ViewerResultDiscarded(e: Entries, scratch: Path, appDir: Path, meta: Option<Metadata>, tpl: Templates, tools: Tools)
    requires ObtainConfig(e, scratch, appDir, meta).0.Ok?
    ensures var (c, e1) := ObtainConfig(e, scratch, appDir, meta);
      Run(e, scratch, appDir, meta, tpl, tools) == (Ok(()), ReadOrBuildSpec(e1, c.value, tpl, tools).1)
  {
  }

  /** The viewer step never touches a `config` file. */
  lemma ViewerStepKeepsConfig(e: Entries, config: Config, tpl: Templates, tools: Tools, dir: Path)
    ensures Configs.ReadFrom(ReadOrBuildSpec(e, config, tpl, tools).1, dir) == Configs.ReadFrom(e, dir)
  {
    var f := ConfigFilePath(dir);
    var c := config.scratchDir;
    LastDiffers(f, CargoTomlPath(c));
    LastDiffers(f, BuildShPath(c));
    LastDiffers(f, SrcDir(c));
    LastDiffers(f, MainRsPath(c));
    LastDiffers(f, Artifact(config.targetDir));
    LastDiffers(f, ViewerFilePath(c));
    ReadOrBuildFrame(e, config, tpl, tools, f);
  }

  /**
   * A run that obtained a config without `rebuild` and whose viewer step
   * succeeded leaves a cache that the next run reuses entirely: whatever the
   * workspace, templates and tools are then, the next run succeeds and
   * changes nothing.
   */
  lemma SecondRunReuses(
    e: Entries, scratch: Path, appDir: Path, meta: Option<Metadata>, tpl: Templates, tools: Tools,
    appDir2: Path, meta2: Option<Metadata>, tpl2: Templates, tools2: Tools)
    requires ObtainConfig(e, scratch, appDir, meta).0.Ok?
    requires !ObtainConfig(e, scratch, appDir, meta).0.value.rebuild
    requires ReadOrBuildSpec(ObtainConfig(e, scratch, appDir, meta).1, ObtainConfig(e, scratch, appDir, meta).0.value, tpl, tools).0.Ok?
    ensures var after := Run(e, scratch, appDir, meta, tpl, tools).1;
      Run(after, scratch, appDir2, meta2, tpl2, tools2) == (Ok(()), after)
  {
    var (c, e1) := ObtainConfig(e, scratch, appDir, meta);
    var config := c.value;
    if Configs.ReadFrom(e, scratch).None? {
      CreateAndSaveEffect(e, scratch, appDir, meta.value);
    }
    assert Configs.ReadFrom(e1, scratch) == Some(config);
    var e2 := ReadOrBuildSpec(e1, config, tpl, tools).1;
    ViewerStepKeepsConfig(e1, config, tpl, tools, scratch);
    ReadOrBuildCaches(e1, config, tpl, tools);
    assert ObtainConfig(e2, scratch, appDir2, meta2) == (Ok(config), e2);
  }
}
