/**
 * cargo-rapp/src/show.rs, the older variant of the show flow, which the crate
 * no longer declares: its own two-field config, a candidate rule that matches
 * a dependency named after a workspace member, and errors that are swallowed
 * into `None` (or abort the program when `cargo metadata` fails).
 */
module LegacyShow {
  import opened Wrappers
  import opened Text
  import opened Paths
  import opened Fs
  import opened Ron
  import opened Workspace
  import opened LexOrder
  import opened ByName
  import opened Discovery

  /** How a run ends: `unwrap` on a failed `cargo metadata` panics. */
  datatype Outcome<T> = Panicked | Finished(value: T)

  datatype LegacyConfig = LegacyConfig(name: string, targetDir: Utf8Path)

  const ConfigName: Component := Utf8("config")

  /** `full_path`: `dir/config`. */
  function FullPath(dir: Path): (p: Path)
    ensures p != [] && Parent(p) == dir && p[|p| - 1] == ConfigName
  {
    dir + [ConfigName]
  }

  /** The record's text; a `Utf8PathBuf` always serialises. */
  function LegacyText(c: LegacyConfig): string
  {
    "(name:" + (Quote(c.name) + (",target_dir:" + (PathText(c.targetDir) + ")")))
  }

  function ParseLegacy(t: string): Option<LegacyConfig>
  {
    var t1 :- Expect("(name:", t);
    var (name, t2) :- ParseQuoted(t1);
    var t3 :- Expect(",target_dir:", t2);
    var (targetDir, t4) :- ParsePath(t3);
    var t5 :- Expect(")", t4);
    if t5 == [] then Some(LegacyConfig(name, targetDir)) else None
  }

  lemma LegacyRoundTrip(c: LegacyConfig)
    ensures ParseLegacy(LegacyText(c)) == Some(c)
  {
    var tail4 := ")";
    var tail3 := PathText(c.targetDir) + tail4;
    var tail2 := ",target_dir:" + tail3;
    var tail1 := Quote(c.name) + tail2;
    ExpectLiteral("(name:", tail1);
    QuotedRoundTrip(c.name, tail2);
    ExpectLiteral(",target_dir:", tail3);
    PathRoundTrip(c.targetDir, tail4);
    ExpectLiteral(")", "");
    assert tail4 == ")" + "";
  }

  /** `Config::read_from`: best effort, `None` on any read or parse failure. */
  function ReadFrom(e: Entries, dir: Path): (r: Option<LegacyConfig>)
    ensures r.Some? ==> ReadToString(e, FullPath(dir)).Some?
  {
    var s :- ReadToString(e, FullPath(dir));
    ParseLegacy(s)
  }

  /** `Config::write_to`: a failed write is ignored. */
  method WriteTo(c: LegacyConfig, dir: Path, fs: FileSystem)
    modifies fs
    ensures fs.entries == WriteSpec(old(fs.entries), FullPath(dir), LegacyText(c)).1
  {
    var path := FullPath(dir);
    var _ := fs.Write(path, LegacyText(c));
  }

  /** After `write_to`, `read_from` returns the record exactly when the file could be written; otherwise nothing changed. */
  lemma WriteThenReadLegacy(e: Entries, c: LegacyConfig, dir: Path)
    ensures var after := WriteSpec(e, FullPath(dir), LegacyText(c)).1;
      if !IsDir(e, FullPath(dir)) && IsDir(e, dir) then ReadFrom(after, dir) == Some(c) else after == e
  {
    WriteSucceeds(e, FullPath(dir), LegacyText(c));
    LegacyRoundTrip(c);
  }

  /** `package_id.repr.split(' ').next().unwrap()`: the id up to its first space. */
  function FirstToken(id: string): (t: string)
    ensures t <= id && ' ' !in t
    ensures |t| < |id| ==> id[|t|] == ' '
  {
    if id == [] || id[0] == ' ' then [] else [id[0]] + FirstToken(id[1..])
  }

  lemma {:induction false} FirstTokenOf(a: string, b: string)
    requires ' ' !in a
    ensures FirstToken(a + (" " + b)) == a
  {
    if a != [] {
      assert (a + (" " + b))[1..] == a[1..] + (" " + b);
      FirstTokenOf(a[1..], b);
      assert [a[0]] + a[1..] == a;
    }
  }

  /** The show.rs rule: every target a lib, and a normal dependency named after the member. */
  predicate LegacyQualifies(p: Package, member: string)
  {
    AllLib(p) && exists d :: d in p.dependencies && d.name == FirstToken(member) && d.kind == Normal
  }

  /** What the inner loop pushes for one member. */
  function LegacyPass(ps: seq<Package>, member: string): seq<Package>
  {
    if ps == [] then []
    else LegacyPass(ps[..|ps| - 1], member) + (if LegacyQualifies(ps[|ps| - 1], member) then [ps[|ps| - 1]] else [])
  }

  /** What the nested loop pushes: one pass over the packages per member. */
  function LegacyCollected(ps: seq<Package>, members: seq<string>): seq<Package>
  {
    if members == [] then []
    else LegacyCollected(ps, members[..|members| - 1]) + LegacyPass(ps, members[|members| - 1])
  }

  function LegacyCandidates(meta: Metadata): seq<Package>
  {
    DedupByName(SortByName(LegacyCollected(meta.packages, meta.workspaceMembers)))
  }

  /** The free function `create_and_save`, without its write. */
  function CreateAndSaveSpec(e: Entries, dir: Path, meta: Option<Metadata>): (Outcome<Option<LegacyConfig>>, Entries)
  {
    if meta.None? then (Panicked, e)
    else
      var cands := LegacyCandidates(meta.value);
      if |cands| != 1 then (Finished(None), e)
      else
        var config := LegacyConfig(cands[0].name, meta.value.targetDirectory);
        (Finished(Some(config)), WriteSpec(e, FullPath(dir), LegacyText(config)).1)
  }

  /** The free function `create_and_save`. */
  method CreateAndSave(dir: Path, meta: Option<Metadata>, fs: FileSystem) returns (r: Outcome<Option<LegacyConfig>>)
    modifies fs
    ensures (r, fs.entries) == CreateAndSaveSpec(old(fs.entries), dir, meta)
  {
    if meta.None? {
      return Panicked;
    }
    var m := meta.value;
    var found: seq<Package> := [];
    for i := 0 to |m.workspaceMembers|
      invariant found == LegacyCollected(m.packages, m.workspaceMembers[..i])
    {
      var id := m.workspaceMembers[i];
      assert m.workspaceMembers[..i + 1][..i] == m.workspaceMembers[..i];
      for j := 0 to |m.packages|
        invariant found == LegacyCollected(m.packages, m.workspaceMembers[..i]) + LegacyPass(m.packages[..j], id)
      {
        var package := m.packages[j];
        assert m.packages[..j + 1][..j] == m.packages[..j];
        if exists t :: t in package.targets && !t.isLib {
          // not a lib
          continue;
        }
        // match by name
        var name := FirstToken(id);
        if exists d :: d in package.dependencies && d.name == name && d.kind == Normal {
          found := found + [package];
        }
      }
      assert m.packages[..|m.packages|] == m.packages;
    }
    assert m.workspaceMembers[..|m.workspaceMembers|] == m.workspaceMembers;
    found := SortByName(found);
    found := DedupByName(found);
    if |found| != 1 {
      return Finished(None);
    }
    var config := LegacyConfig(found[0].name, m.targetDirectory);
    WriteTo(config, dir, fs);
    r := Finished(Some(config));
  }

  /** `Show::run`: the cached config, or else `create_and_save`'s; this is what it prints. */
  function RunSpec(e: Entries, dir: Path, meta: Option<Metadata>): (Outcome<Option<LegacyConfig>>, Entries)
  {
    match ReadFrom(e, dir)
    case Some(c) => (Finished(Some(c)), e)
    case None => CreateAndSaveSpec(e, dir, meta)
  }

  method Run(dir: Path, meta: Option<Metadata>, fs: FileSystem) returns (r: Outcome<Option<LegacyConfig>>)
    modifies fs
    ensures (r, fs.entries) == RunSpec(old(fs.entries), dir, meta)
  {
    var config := ReadFrom(fs.entries, dir);
    if config.None? {
      r := CreateAndSave(dir, meta, fs);
    } else {
      r := Finished(config);
    }
  }

  lemma {:induction false} LegacyPassMembers(ps: seq<Package>, member: string)
    ensures forall x :: x in LegacyPass(ps, member) <==> x in ps && LegacyQualifies(x, member)
  {
    if ps != [] {
      LegacyPassMembers(ps[..|ps| - 1], member);
      assert ps == ps[..|ps| - 1] + [ps[|ps| - 1]];
    }
  }

  lemma {:induction false} LegacyCollectedMembers(ps: seq<Package>, members: seq<string>)
    ensures forall x :: x in LegacyCollected(ps, members) <==>
      x in ps && exists m :: m in members && LegacyQualifies(x, m)
  {
    if members != [] {
      var init := members[..|members| - 1];
      var last := members[|members| - 1];
      LegacyCollectedMembers(ps, init);
      LegacyPassMembers(ps, last);
      assert members == init + [last];
      forall x | x in ps && (exists m :: m in members && LegacyQualifies(x, m))
        ensures x in LegacyCollected(ps, members)
      {
        var m :| m in members && LegacyQualifies(x, m);
        if m != last {
          assert m in init;
        }
      }
    }
  }

  /**
   * Every show.rs candidate is a workspace package whose targets are all libs
   * and which has a normal dependency named after some workspace member; and
   * every such package's name is a candidate's name.
   */
  lemma LegacyCandidatesQualify(meta: Metadata)
    ensures forall c :: c in LegacyCandidates(meta) ==>
      c in meta.packages && (forall t :: t in c.targets ==> t.isLib) &&
      exists m :: m in meta.workspaceMembers && LegacyQualifies(c, m)
    ensures NameSet(LegacyCandidates(meta)) ==
      set p | p in meta.packages && (exists m :: m in meta.workspaceMembers && LegacyQualifies(p, m)) :: p.name
  {
    var collected := LegacyCollected(meta.packages, meta.workspaceMembers);
    var sorted := SortByName(collected);
    LegacyCollectedMembers(meta.packages, meta.workspaceMembers);
    SortSorted(collected);
    DedupSubset(sorted);
    DedupNames(sorted);
    forall c | c in sorted
      ensures c in collected
    {
      assert c in multiset(sorted);
    }
    assert NameSet(sorted) == NameSet(collected) by {
      forall c
        ensures c in sorted <==> c in collected
      {
        assert c in sorted <==> c in multiset(sorted);
      }
    }
  }

  /** The show.rs candidates are sorted by name, with no two sharing a name. */
  lemma LegacyCandidatesSortedUnique(meta: Metadata)
    ensures forall i, j :: 0 <= i < j < |LegacyCandidates(meta)| ==>
      Less(LegacyCandidates(meta)[i].name, LegacyCandidates(meta)[j].name)
    ensures forall i, j :: 0 <= i < |LegacyCandidates(meta)| && 0 <= j < |LegacyCandidates(meta)| && i != j ==>
      LegacyCandidates(meta)[i].name != LegacyCandidates(meta)[j].name
  {
    var c := LegacyCandidates(meta);
    var collected := LegacyCollected(meta.packages, meta.workspaceMembers);
    SortSorted(collected);
    DedupStrict(SortByName(collected));
    forall i, j | 0 <= i < |c| && 0 <= j < |c| && i != j
      ensures c[i].name != c[j].name
    {
      StrictlySortedDistinct(c, i, j);
    }
  }

  /**
   * `create_and_save` writes only when there is exactly one candidate, and
   * then returns the record with that candidate's name and the workspace's
   * target directory, which `read_from` finds when the write went through.
   */
  lemma CreateAndSaveOutcome(e: Entries, dir: Path, meta: Metadata)
    ensures |LegacyCandidates(meta)| != 1 ==> CreateAndSaveSpec(e, dir, Some(meta)) == (Finished(None), e)
    ensures |LegacyCandidates(meta)| == 1 ==>
      var c := LegacyConfig(LegacyCandidates(meta)[0].name, meta.targetDirectory);
      && CreateAndSaveSpec(e, dir, Some(meta)).0 == Finished(Some(c))
      && (!IsDir(e, FullPath(dir)) && IsDir(e, dir) ==> ReadFrom(CreateAndSaveSpec(e, dir, Some(meta)).1, dir) == Some(c))
      && (IsDir(e, FullPath(dir)) || !IsDir(e, dir) ==> CreateAndSaveSpec(e, dir, Some(meta)).1 == e)
  {
    if |LegacyCandidates(meta)| == 1 {
      WriteThenReadLegacy(e, LegacyConfig(LegacyCandidates(meta)[0].name, meta.targetDirectory), dir);
    }
  }

  /** `create_and_save` runs only when `read_from` found nothing. */
  lemma RunUsesCache(e: Entries, dir: Path, meta: Option<Metadata>)
    ensures ReadFrom(e, dir).Some? ==> RunSpec(e, dir, meta) == (Finished(ReadFrom(e, dir)), e)
    ensures ReadFrom(e, dir).None? ==> RunSpec(e, dir, meta) == CreateAndSaveSpec(e, dir, meta)
  {
  }

  /**
   * Under the show.rs rule the METADATA_1 fixture has no candidate: `my_rap`
   * depends on `rapp`, not on a crate named after the member `my_rap`.
   */
  lemma LegacyFixture()
    ensures LegacyCandidates(Metadata1) == []
  {
    var ps := Metadata1.packages;
    var member := Metadata1.workspaceMembers[0];
    assert FirstToken(member) == "my_rap" by {
      FirstTokenOf("my_rap", FixtureIdTail);
    }
    assert !LegacyQualifies(ps[0], member) by {
      forall d | d in ps[0].dependencies
        ensures d.name != "my_rap"
      {
        assert d == Dependency("rapp", Normal);
      }
    }
    assert !LegacyQualifies(ps[1], member);
    assert ps[..1] == [ps[0]] && ps[..1][..0] == [];
    assert LegacyPass(ps[..1], member) == LegacyPass(ps[..1][..0], member) + [] == [];
    assert LegacyPass(ps, member) == LegacyPass(ps[..1], member) + [] == [];
    assert Metadata1.workspaceMembers[..0] == [];
    assert LegacyCollected(ps, Metadata1.workspaceMembers) == [];
  }
}
