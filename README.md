# cargo-rapp: discover, generate, build, reuse

This project is a Dafny model of the core of `cargo rapp show`. The command:

1. finds the one library crate of a Cargo workspace that depends on `rapp`;
2. records that choice as a `Config` in a scratch directory;
3. generates a small wrapper project (`Cargo.toml`, `build.sh`, `src/main.rs`) around the crate;
4. builds it with `cargo build`;
5. keeps the resulting `Viewer` (the path of the built binary) next to the config, so a later run can reuse it.

The model covers `cargo-rapp/src/config.rs`, `cargo-rapp/src/viewer.rs`, `cargo-rapp/src/cmd_show.rs` and the older `cargo-rapp/src/show.rs`.

Modules:

- `Paths` describes paths as sequences of components. A component is UTF-8 text, or bytes that are not UTF-8, so `to_str` can fail. The module also gives a path's `Display` text and its `{:?}` form.
- `Fs` is the file system, a map from paths to files and directories.
  - One pure function gives the effect of each `std::fs` call that is used.
  - The class `Fs.FileSystem` holds the mutable map. Every method of the model changes it one call at a time.
- `Text` and `Ron` give a text form for the stored records, with a proved read-after-write round trip.
- `Workspace`, `LexOrder` and `ByName` hold the metadata entities, the `String::cmp` order, and `sort_by`/`dedup_by` on package names.
- `Discovery` is `rapp_candidates`.
- `Configs` covers the `Config` record, its file, and `create_and_save`.
- `Replace` is `str::replace`.
- `Viewers` has the class `Viewer` with `build`, `run`, `new`, `read_from`, `write_to` and `read_or_build`. Each except `run` is a method proved equal to a pure specification function, and the properties are lemmas about those functions. The contract of `run` states its guards and its outcome directly.
- `CmdShow` is `Show::run`, written as a function.
- `LegacyShow` is `show.rs`.

Subprocesses are taken as inputs:

- `Tools` says whether `chmod +x build.sh` and the script could be started, and which binary (if any) the script leaves at the artifact path.
- `Exit` is the launched viewer's end.
- The answer of `cargo metadata` is an `Option<Metadata>`, where `None` means the command failed.
- The working directory, the `scratch::path("rapp_runner")` directory and the embedded `code_gen` templates (`Templates`) are also inputs.

Points worth noting about what the code does:

- `build` expects the binary at `target_dir/target/debug/rapp_runner`. Here `target_dir` is the config's `.../debug/build/rapp_runner`.
- `Show::run` reuses any cached config, whatever the `rebuild` flag says. It never overwrites the cached flags. `rebuild` (as stored in the config) only decides whether the viewer is regenerated.
- `Show::run` never launches the viewer. It discards the viewer step's result and succeeds once it has a config.
- Placeholders in the manifest template are replaced at every occurrence. Zero occurrences are accepted.
- `cmd_show.rs` calls `Viewer::load_or_create(&config, temp_scr_dir)`, which `viewer.rs` does not define. The model uses `read_or_build(&config)` there. That function works in `config.scratch_dir`; for a cached config, this may differ from the scratch directory of the current run.
- `RappError::Other`, which `config.rs` and `viewer.rs` construct, is not declared in `error.rs` (a file that is not part of this model). `Errors.RappError` adds it.
- The `show.rs` rule selects a package only if it has a normal dependency named after the workspace member's first word; it does not look for a dependency on `rapp`. So for the METADATA_1 fixture it finds no crate (`LegacyShow.LegacyFixture`), while `config.rs` finds `my_rap`.

## Model

| member | source | states |
|---|---|---|
| Paths.ToStr | cargo-rapp/src/viewer.rs:123-125 | `to_str` gives the text of a path exactly when every component is UTF-8 |
| Paths.DisplayRoundTrip | cargo-rapp/src/config.rs:23-28 | a UTF-8 path read back from its text form is the same path |
| Paths.DebugQuotedUtf8 | cargo-rapp/src/viewer.rs:140 | for a UTF-8 path, the `{:?}` form is its text in double quotes, escaped as `char::escape_debug` escapes (so a single quote becomes `\'`). Without single quotes it is the text quoted as a string |
| Paths.PathEscapeAppend | cargo-rapp/src/viewer.rs:140 | escaping a path's text works character by character, so it distributes over concatenation |
| Paths.PathEscapeNoQuote | cargo-rapp/src/viewer.rs:140 | a text without single quotes is escaped the same way in a path and in a string |
| Paths.DebugQuotedApostrophe | cargo-rapp/src/viewer.rs:140 | the `{:?}` form of `/o'x` is `"/o\'x"`: the single quote is escaped |
| Paths.DebugQuotedInvalidByte | cargo-rapp/src/viewer.rs:140 | the `{:?}` form of `/a` followed by the byte `0xFF` is `"/a\xFF"`: the valid run stays text, and only the invalid byte is hex-escaped |
| Text.Expect | cargo-rapp/src/config.rs:27 | matching a literal returns the rest of the text exactly when the text starts with the literal |
| Text.ExpectLiteral | cargo-rapp/src/config.rs:27 | a literal followed by any tail is consumed, leaving that tail |
| Text.QuotedRoundTrip | cargo-rapp/src/config.rs:27 | a quoted string followed by any tail parses back to the string and the tail |
| Ron.BoolRoundTrip | cargo-rapp/src/config.rs:18-19 | a written flag, followed by any tail, reads back unchanged |
| Ron.PathRoundTrip | cargo-rapp/src/config.rs:15-17 | a written UTF-8 path, followed by any tail, reads back unchanged |
| Ron.OptPathRoundTrip | cargo-rapp/src/viewer.rs:13 | a written `Option<PathBuf>`, followed by any tail, reads back unchanged |
| Ron.SomePathRoundTrip | cargo-rapp/src/viewer.rs:13 | `Some(<path>)` followed by any text reads back as that path and the text |
| Fs.WriteSucceeds | cargo-rapp/src/config.rs:93 | `fs::write` succeeds exactly when the path is not a directory and its parent is one |
| Fs.WriteThenRead | cargo-rapp/src/config.rs:25 | after a successful write, `read_to_string` returns the written text |
| Fs.WriteFrame | cargo-rapp/src/config.rs:93 | a write changes no other path |
| Fs.EnsureDirFrame | cargo-rapp/src/config.rs:60-62 | `create_dir` when missing changes no other path |
| Fs.RemoveFileFrame | cargo-rapp/src/viewer.rs:73-75 | `remove_file` changes no other path |
| Fs.EnsureDirResult | cargo-rapp/src/config.rs:60-62 | after success the directory exists; it was added only if it was missing |
| Fs.FileSystem.Write | cargo-rapp/src/config.rs:93 | result and new entries are those of `fs::write` (`WriteSpec`) |
| Fs.FileSystem.CreateDir | cargo-rapp/src/config.rs:61 | result and new entries are those of `fs::create_dir` |
| Fs.FileSystem.RemoveFile | cargo-rapp/src/viewer.rs:74 | result and new entries are those of `fs::remove_file` |
| Fs.FileSystem.EnsureDir | cargo-rapp/src/config.rs:60-62 | result and new entries are those of `if !p.exists() { fs::create_dir(p)? }` |
| Fs.FileSystem.Produce | cargo-rapp/src/viewer.rs:92 | the build script leaves its binary, if any, at the given path and changes nothing else |
| LexOrder.Irreflexive | cargo-rapp/src/config.rs:142 | no name is below itself under `String::cmp` |
| LexOrder.Transitive | cargo-rapp/src/config.rs:142 | the name order is transitive |
| LexOrder.Trichotomy | cargo-rapp/src/config.rs:142 | any two names are ordered one way, or are equal |
| LexOrder.Asymmetric | cargo-rapp/src/config.rs:142 | two names are never below each other |
| LexOrder.NotAfterTransitive | cargo-rapp/src/config.rs:142 | "not after" is transitive |
| ByName.Names | cargo-rapp/src/config.rs:44-47 | the collected names are the packages' names, in order |
| ByName.NameSetCons | cargo-rapp/src/config.rs:143 | the names of `h` followed by `t` are `h`'s name plus the names of `t` |
| ByName.SortedCons | cargo-rapp/src/config.rs:142 | a sorted list stays sorted when a name no greater than all of it is put in front |
| ByName.StrictlySortedCons | cargo-rapp/src/config.rs:143 | the same for a strictly sorted list and a strictly smaller name |
| ByName.InsertSorted | cargo-rapp/src/config.rs:142 | inserting into a sorted list keeps it sorted and adds exactly that element |
| ByName.SortSorted | cargo-rapp/src/config.rs:142 | `sort_by` on names gives a sorted permutation of its input |
| ByName.DedupFirst | cargo-rapp/src/config.rs:143 | `dedup_by` keeps the first element |
| ByName.DedupSubset | cargo-rapp/src/config.rs:143 | `dedup_by` only drops elements |
| ByName.DedupNames | cargo-rapp/src/config.rs:143 | `dedup_by` keeps every name that occurs |
| ByName.DedupStrict | cargo-rapp/src/config.rs:142-143 | after sorting, `dedup_by` leaves names strictly increasing |
| ByName.StrictlySortedDistinct | cargo-rapp/src/config.rs:142-143 | strictly increasing names are pairwise distinct |
| Discovery.RappCandidates | cargo-rapp/src/config.rs:104-146 | the nested loop, sort and dedup return `Candidates(meta)`: the qualifying packages, collected once per member, sorted and deduplicated by name |
| Discovery.QualifyingMembers | cargo-rapp/src/config.rs:110-137 | one pass over the packages pushes exactly the qualifying ones |
| Discovery.RepeatMembers | cargo-rapp/src/config.rs:108 | repeating the pass for each member pushes the same elements, or none when there are no members |
| Discovery.CollectedMembers | cargo-rapp/src/config.rs:108-138 | a package is collected exactly when there is a member and the package qualifies |
| Discovery.CandidateMembers | cargo-rapp/src/config.rs:141-145 | every candidate was collected, and the candidates keep every collected name |
| Discovery.CandidatesQualify | cargo-rapp/src/config.rs:110-126 | every candidate is a workspace package: all its targets are libs, it is not `runner`, and it has a normal dependency on `rapp` |
| Discovery.CandidatesSortedUnique | cargo-rapp/src/config.rs:141-143 | candidates are strictly sorted by name, and no two share a name |
| Discovery.CandidateNames | cargo-rapp/src/config.rs:104-146 | the candidate names are exactly the names of qualifying packages, or none without members |
| Discovery.NoMembersNoCandidates | cargo-rapp/src/config.rs:108 | with no workspace members there are no candidates |
| Discovery.NoCandidateWhen | cargo-rapp/src/config.rs:104-146 | there is no candidate exactly when there are no members or no package qualifies |
| Discovery.AmbiguousWhen | cargo-rapp/src/config.rs:104-146 | there are two or more candidates exactly when two qualifying packages have different names |
| Discovery.AmbiguousHasTwo | cargo-rapp/src/config.rs:104-146 | two or more candidates give two qualifying packages with different names |
| Discovery.TwoGiveAmbiguous | cargo-rapp/src/config.rs:104-146 | when there are members, two qualifying packages with different names give at least two candidates |
| Discovery.FixtureCandidates | cargo-rapp/src/config.rs:161-175 | METADATA_1 and METADATA_2 each resolve to their one library |
| Configs.ConfigFilePath | cargo-rapp/src/config.rs:97-101 | the config file is `dir/config` |
| Configs.SerializeConfig | cargo-rapp/src/config.rs:93 | serialising succeeds exactly when all three paths are UTF-8 |
| Configs.ConfigRoundTrip | cargo-rapp/src/config.rs:23-28 | parsing a serialised config gives the same record |
| Configs.ReadFrom | cargo-rapp/src/config.rs:23-28 | a config is found only where `dir/config` is a readable file |
| Configs.WriteTo | cargo-rapp/src/config.rs:91-95 | result and new entries are those of serialise-then-write to `dir/config` |
| Configs.WriteThenReadConfig | cargo-rapp/src/config.rs:91-95 | `write_to` succeeds exactly when the record serialises, `dir/config` is not a directory and `dir` is one; after success `read_from` returns the record |
| Configs.WriteToFrame | cargo-rapp/src/config.rs:91-95 | `write_to` changes no path other than `dir/config` |
| Configs.CreateAndSave | cargo-rapp/src/config.rs:30-89 | result and new entries are those of `CreateAndSaveSpec` |
| Configs.TargetChain | cargo-rapp/src/config.rs:58-74 | the chain is the target directory, then `debug`, `build` and `rapp_runner`, each inside the one before |
| Configs.TargetDirResult | cargo-rapp/src/config.rs:57-74 | on success the innermost directory is returned; every chain directory exists, missing ones became directories, and nothing else changed |
| Configs.CreateAndSaveNoCandidate | cargo-rapp/src/config.rs:39-41 | `NoRappCrateFound(cache_dir)` exactly when no candidate exists; then nothing changes |
| Configs.CreateAndSaveAmbiguous | cargo-rapp/src/config.rs:43-50 | two differently named qualifying packages give `MultipleRappCratesFound` with strictly sorted names, which are exactly the qualifying names; nothing changes |
| Configs.CreateAndSaveSteps | cargo-rapp/src/config.rs:52-88 | on success there is one candidate, the chain step succeeded and the record written is built from it |
| Configs.CreateAndSaveFields | cargo-rapp/src/config.rs:76-83 | the new record has the candidate's name, the chain's innermost directory, the given scratch and app directories, and both flags off |
| Configs.CreateAndSaveEffect | cargo-rapp/src/config.rs:57-88 | afterwards the chain exists, `read_from(cache_dir)` returns the record, and only the chain and `cache_dir/config` changed |
| Configs.TwoLibrariesScenario | cargo-rapp/src/config.rs:43-50 | with libraries `foo` and `bar` the error is `MultipleRappCratesFound(["bar", "foo"])` and nothing changes |
| Configs.TwoLibrariesQualifying | cargo-rapp/src/config.rs:110-137 | in the two-library workspace, both libraries `foo` and `bar` qualify, in that order |
| Configs.TwoLibrariesSorted | cargo-rapp/src/config.rs:141 | sorting `foo`, `bar` by name puts `bar` first |
| Configs.TwoLibrariesCandidates | cargo-rapp/src/config.rs:104-146 | the two-library workspace resolves to `bar`, `foo` |
| Configs.SoleCandidate | cargo-rapp/src/config.rs:52-55 | a sole candidate is a qualifying workspace package, and every qualifying package has its name |
| Configs.EnsureFirstErrors | cargo-rapp/src/config.rs:58-62 | creating the target directory fails only with an I/O error |
| Configs.PushEnsureErrors | cargo-rapp/src/config.rs:63-74 | each further step of the chain passes on an I/O error and adds only I/O errors of its own |
| Configs.TargetDirErrors | cargo-rapp/src/config.rs:57-74 | the whole directory chain fails only with I/O errors |
| Configs.PushEnsureResult | cargo-rapp/src/config.rs:63-74 | a successful step follows a successful one, returns the extended path, which then exists; an existing directory is left as it was, a missing one is created |
| Configs.TargetDirFrame | cargo-rapp/src/config.rs:57-74 | the chain changes only chain directories that were missing |
| Configs.EnsureFirstFrame | cargo-rapp/src/config.rs:57-62 | the first step changes no path besides the target directory, and leaves that one unchanged when it already existed |
| Configs.PushEnsureFrame | cargo-rapp/src/config.rs:63-74 | each later step changes no path besides its own directory, and leaves that one unchanged when it already existed |
| Configs.SaveErrors | cargo-rapp/src/config.rs:57-88 | after one candidate is found, the rest of `create_and_save` fails only with I/O or serialisation errors, never a domain error |
| Configs.WriteToErrors | cargo-rapp/src/config.rs:91-95 | `write_to` fails only with a serialisation or an I/O error |
| Replace.Pieces | cargo-rapp/src/viewer.rs:132 | cutting at a pattern yields at least one piece |
| Replace.JoinHead | cargo-rapp/src/viewer.rs:132 | a leading character of the first piece can be moved outside the join: joining `[c] + x` and the rest is `c` followed by joining `x` and the rest |
| Replace.JoinEmptyHead | cargo-rapp/src/viewer.rs:132 | an empty first piece followed by at least one more joins to the separator followed by the rest joined |
| Replace.ReplaceIsJoin | cargo-rapp/src/viewer.rs:132-133 | `replace` is the text cut at every leftmost occurrence, with the replacement joined in between |
| Replace.PiecesJoin | cargo-rapp/src/viewer.rs:132 | joining the pieces with the pattern gives back the original text |
| Replace.OccursShift | cargo-rapp/src/viewer.rs:132 | an occurrence inside a suffix is an occurrence in the whole text, shifted |
| Replace.PiecesLeftmost | cargo-rapp/src/viewer.rs:132 | no piece contains the pattern before its cut, so cuts are at leftmost non-overlapping matches |
| Replace.LeftmostAfterMatch | cargo-rapp/src/viewer.rs:132 | a match at the front adds an empty piece and keeps every cut leftmost |
| Replace.LeftmostAfterChar | cargo-rapp/src/viewer.rs:132 | a character that starts no match joins the first piece and keeps every cut leftmost |
| Replace.LeftmostNewHead | cargo-rapp/src/viewer.rs:132 | a new first piece with no early match keeps every cut leftmost |
| Replace.NoMatchCons | cargo-rapp/src/viewer.rs:132 | a character that starts no match, before a text with no match, gives a text with no match |
| Replace.NoMatchConsBeforeCut | cargo-rapp/src/viewer.rs:132 | a character that starts no match, before a piece whose first match is its cut, gives a piece whose first match is still its cut |
| Viewers.Artifact | cargo-rapp/src/viewer.rs:66-70 | the binary path is `target_dir/target/debug/rapp_runner` |
| Viewers.SerializeViewer | cargo-rapp/src/viewer.rs:180 | serialising a viewer succeeds exactly when all its paths are UTF-8 |
| Viewers.LastDiffers | cargo-rapp/src/viewer.rs:184-188 | paths with different last components are different |
| Viewers.ViewerRoundTrip | cargo-rapp/src/viewer.rs:171-182 | parsing a serialised viewer gives the same record |
| Viewers.WriteThenReadViewer | cargo-rapp/src/viewer.rs:171-182 | `write_to` succeeds exactly when the record serialises and `dir/viewer` can be written; after success `read_from` returns the record |
| Viewers.ViewerFilePath | cargo-rapp/src/viewer.rs:184-188 | the viewer file is `dir/viewer` |
| Viewers.ManifestPieces | cargo-rapp/src/viewer.rs:127-133 | the manifest is the template cut at each `${dir}` and joined with the app directory, then cut at each `${name}` and joined with the crate name |
| Viewers.BuildScriptText | cargo-rapp/src/viewer.rs:138-141 | `build.sh` is `cd `, the scratch directory in its `{:?}` form, a newline, then `cargo build`. Without single quotes in the path, that form is the path quoted as a string |
| Viewers.BuildFrame | cargo-rapp/src/viewer.rs:65-108 | `build` changes no path other than the artifact |
| Viewers.BuildOutcome | cargo-rapp/src/viewer.rs:65-108 | `build` succeeds exactly when: the artifact is not a directory; `build.sh` exists; both commands start; the script leaves a binary. On success `bin` is the artifact; on failure the record is unchanged |
| Viewers.BuildIgnoresExitCodes | cargo-rapp/src/viewer.rs:85-97 | the exit codes of `chmod` and of the script do not change what `build` does |
| Viewers.BuildMissingScript | cargo-rapp/src/viewer.rs:72-82 | without `build.sh`, `build` fails with `File not found: <path>` once the stale binary is removed |
| Viewers.BuildStaleBinary | cargo-rapp/src/viewer.rs:72-75 | an old binary never counts: if the script leaves none, `build` fails and the old binary is gone |
| Viewers.GenerateFrame | cargo-rapp/src/viewer.rs:119-158 | generating changes only `Cargo.toml`, `build.sh`, `src` and `src/main.rs` |
| Viewers.GeneratedFiles | cargo-rapp/src/viewer.rs:119-158 | after success, the following hold. The manifest is the template `use_relative_paths` selects, with the substitutions. `build.sh` has its exact text. `src` is a directory. `src/main.rs` is the template |
| Viewers.GeneratedPathsDistinct | cargo-rapp/src/viewer.rs:119-158 | `Cargo.toml`, `build.sh`, `src` and `src/main.rs` are four different paths, and `src/main.rs` sits in `src` |
| Viewers.ScriptAndSourcesResult | cargo-rapp/src/viewer.rs:137-158 | after success, `build.sh` has its exact text, `src` is a directory, `src/main.rs` is the template, and the manifest is untouched |
| Viewers.SourcesResult | cargo-rapp/src/viewer.rs:148-158 | after success, `src` is a directory, `src/main.rs` is the template, and the manifest and `build.sh` are untouched |
| Viewers.ScriptAndSourcesFrame | cargo-rapp/src/viewer.rs:137-158 | writing `build.sh` and the sources changes only those three paths |
| Viewers.NewNotUtf8 | cargo-rapp/src/viewer.rs:123-125 | a non-UTF-8 app directory fails `new` with `could not convert path to string` before anything is written |
| Viewers.NewRecord | cargo-rapp/src/viewer.rs:110-169 | a successful `new` copies the scratch and target directories and `use_relative_paths`, and its `bin` is the artifact, which exists |
| Viewers.NewFrame | cargo-rapp/src/viewer.rs:110-169 | `new` changes only the generated paths and the artifact |
| Viewers.ViewerFileUntouched | cargo-rapp/src/viewer.rs:184-188 | `dir/viewer` is none of the paths `new` changes |
| Viewers.ReadOrBuildCached | cargo-rapp/src/viewer.rs:21-25 | without `rebuild`, a cached viewer is returned and nothing changes |
| Viewers.ReadOrBuildNewFails | cargo-rapp/src/viewer.rs:30-36 | when `new` fails, its error is returned and `scratch_dir/viewer` is untouched |
| Viewers.ReadOrBuildRebuilds | cargo-rapp/src/viewer.rs:20-37 | with `rebuild` or nothing cached, the cache is ignored. The result is the error of `new`, else the error of `write_to`, else the freshly built record: artifact as `bin`, with the config's scratch directory, target directory and `use_relative_paths`. Once `new` succeeds, the result is `Ok` exactly when that record serialises and `scratch_dir/viewer` can be written |
| Viewers.ReadOrBuildCaches | cargo-rapp/src/viewer.rs:20-37 | after success, `read_from(scratch_dir)` returns exactly the returned viewer |
| Viewers.ReadOrBuildFrame | cargo-rapp/src/viewer.rs:20-37 | `read_or_build` changes only the generated project, the artifact and `scratch_dir/viewer` |
| Viewers.WriteViewerFrame | cargo-rapp/src/viewer.rs:178-182 | `write_to` changes no path other than `dir/viewer` |
| Viewers.Viewer.constructor | cargo-rapp/src/viewer.rs:111-116 | the object holds the given record |
| Viewers.Viewer.Run | cargo-rapp/src/viewer.rs:39-63 | each guard gives its error message (no binary; binary gone; launch failed). It succeeds exactly when the binary exists and could be launched, whatever its exit status |
| Viewers.Viewer.Build | cargo-rapp/src/viewer.rs:65-108 | result, new record and new entries are those of `BuildSpec` |
| Viewers.Viewer.Generate | cargo-rapp/src/viewer.rs:119-158 | result and new entries are those of `GenerateSpec` |
| Viewers.Viewer.New | cargo-rapp/src/viewer.rs:110-169 | entries, error and fresh viewer are those of `NewSpec` |
| Viewers.Viewer.ReadFrom | cargo-rapp/src/viewer.rs:171-176 | returns a fresh viewer exactly when `dir/viewer` parses, holding that record |
| Viewers.Viewer.WriteTo | cargo-rapp/src/viewer.rs:178-182 | result and new entries are those of serialise-then-write to `dir/viewer` |
| Viewers.Viewer.ReadOrBuild | cargo-rapp/src/viewer.rs:20-37 | entries, error and viewer are those of `ReadOrBuildSpec` |
| CmdShow.Run | cargo-rapp/src/cmd_show.rs:8-34 | the run fails exactly when the config step fails |
| CmdShow.CachedConfigUsed | cargo-rapp/src/cmd_show.rs:13-17 | a cached config is used as it is; the metadata and working directory play no part |
| CmdShow.MissingConfigCreated | cargo-rapp/src/cmd_show.rs:18-21 | with no cached config, `create_and_save` runs in the same directory; its config points there and has `rebuild` off |
| CmdShow.ConfigErrorStops | cargo-rapp/src/cmd_show.rs:20 | a config error ends the run with that error, before the viewer step |
| CmdShow.ViewerResultDiscarded | cargo-rapp/src/cmd_show.rs:26-33 | once there is a config the run succeeds, even when the viewer step fails |
| CmdShow.ViewerStepKeepsConfig | cargo-rapp/src/cmd_show.rs:26 | the viewer step never changes what `Config::read_from` finds |
| CmdShow.SecondRunReuses | cargo-rapp/src/cmd_show.rs:13-26 | after a run that got a config without `rebuild` and a viewer, the next run succeeds and changes nothing, whatever its metadata, templates and tools |
| LegacyShow.FullPath | cargo-rapp/src/show.rs:63-67 | the config file is `dir/config` |
| LegacyShow.ReadFrom | cargo-rapp/src/show.rs:41-51 | a config is found only where `dir/config` is a readable file |
| LegacyShow.LegacyRoundTrip | cargo-rapp/src/show.rs:41-61 | parsing a serialised two-field config gives the same record |
| LegacyShow.WriteTo | cargo-rapp/src/show.rs:53-61 | the new entries are those of the write; its error is dropped |
| LegacyShow.WriteThenReadLegacy | cargo-rapp/src/show.rs:41-61 | `read_from` returns the record after `write_to` exactly when the write could happen; otherwise nothing changed |
| LegacyShow.FirstToken | cargo-rapp/src/show.rs:82 | the first token is the prefix of the id up to its first space |
| LegacyShow.FirstTokenOf | cargo-rapp/src/show.rs:82 | the first token of `a b` is `a`, for `a` without spaces |
| LegacyShow.CreateAndSave | cargo-rapp/src/show.rs:70-129 | result and new entries are those of `CreateAndSaveSpec` (a metadata failure panics) |
| LegacyShow.Run | cargo-rapp/src/show.rs:11-31 | result and new entries are those of `RunSpec`: the cached config, or else `create_and_save`'s |
| LegacyShow.LegacyPassMembers | cargo-rapp/src/show.rs:76-94 | one pass pushes exactly the packages that qualify for that member |
| LegacyShow.LegacyCollectedMembers | cargo-rapp/src/show.rs:75-95 | a package is collected exactly when it qualifies for some member |
| LegacyShow.LegacyCandidatesQualify | cargo-rapp/src/show.rs:75-99 | every candidate is a package whose targets are all libs and that depends on a member's first token; the candidate names are the names of all such packages |
| LegacyShow.LegacyCandidatesSortedUnique | cargo-rapp/src/show.rs:98-99 | the candidates are strictly sorted by name, and no two share a name |
| LegacyShow.CreateAndSaveOutcome | cargo-rapp/src/show.rs:101-128 | without exactly one candidate, nothing is written and the result is `None`. With exactly one candidate, the result has that candidate's name and the target directory, and `read_from` finds it when the write could happen |
| LegacyShow.RunUsesCache | cargo-rapp/src/show.rs:15-18 | `create_and_save` runs only when `read_from` found nothing |
| LegacyShow.LegacyFixture | cargo-rapp/src/show.rs:82-86 | under this rule METADATA_1 yields no candidate |

## Left out

- Logging (`trace!`, `debug!`), `println!` and `dbg!` are not modelled. The `String::from_utf8(output.stdout)?` conversions in `build` and `run` are left out too, so their failure paths are absent.
- `current_dir()` and `scratch::path("rapp_runner")` are inputs. A failing `current_dir()` is not modelled.
- `MetadataCommand::exec` is an input `Option<Metadata>`, and `None` stands for any failure. Only the fields the core reads are kept. `Target::is_lib` is a flag.
- `ron` is modelled as one canonical text form with a proved round trip. The model does not cover ron's whitespace tolerance, its other string escapes or reordered fields. A file in any other form reads as "nothing cached", which is what `.ok()` makes of a failed parse.
- The `{:?}` form of a path escapes `\0 \t \r \n " \ '` in text. A component that is not UTF-8 is given as the chunks `Utf8Chunks` splits its bytes into. Each valid run is escaped as text, and only the invalid bytes are written as `\xNN`. The model takes these chunks as given and does not decode raw bytes into them. The `\u{..}` escapes that `char::escape_debug` writes for other non-printable and grapheme-extending characters are not modelled. So `{:?}` texts are exact only for paths without such characters. These texts are the `build.sh` content stated by `Viewers.BuildScriptText`, `Viewers.GeneratedFiles` and `Viewers.ScriptAndSourcesResult`, and the `File not found`, `Viewer binary not found` and `Build did not generate` messages.
- The `code_gen` templates (`include_bytes!`) are not part of this model. They are inputs, and the `String::from_utf8` of a committed template is taken to succeed.
- The build script's effect is only whether it leaves a binary at the artifact path. Other files `cargo build` writes, and the permission bits `chmod` sets, are not modelled.
- Paths are absolute sequences of components. Relative paths, `..`, symlinks and permissions are not modelled. Entries below a file path are not ruled out by the map.
- Display strings of `RappError` and the exit-code values are not modelled. `run` succeeds for every exit status anyway.
- Concurrent runs against the same scratch directory are not modelled.
- Configs.ReadFrom: its own contract only says a config comes from a readable `dir/config`. Its full content is stated by `Configs.WriteThenReadConfig`.
- LegacyShow.ReadFrom: its own contract only says a config comes from a readable `dir/config`. Its full content is stated by `LegacyShow.WriteThenReadLegacy`.
- Viewers.Viewer.Run: the `String::from_utf8(output.stdout)?` at viewer.rs:58 is not modelled. Its failure, for a viewer that exits successfully but prints bytes that are not UTF-8, would be an error. So `run` is `Ok` exactly when the binary exists and could be launched, whatever it prints.
- Viewers.BuildOutcome: the `String::from_utf8(output.stdout)?` calls at viewer.rs:88 and 95 are not modelled. When `chmod` or the script exits unsuccessfully and prints bytes that are not UTF-8, `build` fails there. The model instead goes on to look for the binary.
- Viewers.BuildIgnoresExitCodes: holds only because those `String::from_utf8` calls are left out. In the source, a non-zero exit plus output that is not UTF-8 makes `build` fail, so there the exit codes can matter.
- `sort_by` and `dedup_by` work in place on a `Vec`. Here they are functions on the collected sequence.
