/**
 * The part of `cargo metadata`'s answer the pipeline looks at: each package's
 * name, dependencies and targets, the workspace member ids and the target
 * directory. The two fixtures are the ones the tests of config.rs parse.
 */
module Workspace {
  import opened Paths

  datatype DependencyKind = Normal | Development | Build

  datatype Dependency = Dependency(name: string, kind: DependencyKind)

  /** A build target; only whether it is a library (`Target::is_lib`) matters here. */
  datatype Target = Target(isLib: bool)

  datatype Package = Package(name: string, dependencies: seq<Dependency>, targets: seq<Target>)

  /** `workspaceMembers` are package ids such as `"my_rap 0.1.0 (path+file:///...)"`. */
  datatype Metadata = Metadata(packages: seq<Package>, workspaceMembers: seq<string>, targetDirectory: Utf8Path)

  const Users: Component := Utf8("Users")
  const Developer: Component := Utf8("developer")
  const Projects: Component := Utf8("Projects")
  const MyRap: Component := Utf8("my_rap")
  const TargetDir: Component := Utf8("target")

  /** `/Users/developer/Projects/my_rap/target`. */
  const FixtureTargetDirectory: Utf8Path := [Users, Developer, Projects, MyRap, TargetDir]

  /** The `rapp` library itself: a lib with no dependencies. */
  const RappPackage := Package("rapp", [], [Target(true)])

  /** The version and source part of the fixtures' package ids. */
  const FixtureIdTail := "0.1.0 (path+file:///Users/developer/Projects/my_rap/hello_app)"

  /** METADATA_1: `my_rap` depends on `rapp` (dependency kind `null`, i.e. normal). */
  const Metadata1 := Metadata(
    [Package("my_rap", [Dependency("rapp", Normal)], [Target(true)]), RappPackage],
    ["my_rap" + (" " + FixtureIdTail)],
    FixtureTargetDirectory)

  /** METADATA_2: the same workspace with the member called `hello_app`. */
  const Metadata2 := Metadata(
    [Package("hello_app", [Dependency("rapp", Normal)], [Target(true)]), RappPackage],
    ["hello_app" + (" " + FixtureIdTail)],
    FixtureTargetDirectory)
}
