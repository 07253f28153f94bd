/**
 * The situations the repository's tests exercise, stated for any working directory `cwd` and
 * any segment names: a package directory `pkg` below it, a directory `client` below that, and
 * the configuration file name `name`.
 */
module Scenarios {
  import opened Wrappers
  import opened Paths
  import opened FileUp
  import opened Diagnostics
  import opened ConfigSearch
  import LegacyIndex

  /** The options of a call that gives only a file path. */
  function OnlyFilePath(filePath: string): FindConfigFileOptions {
    FindConfigFileOptions(filePath, None, None, None)
  }

  /**
   * A file next to the working directory is found there, by its bare name, from one level below,
   * with `pkg` as start directory, and with `..` as stop directory; the older version returns the
   * same path.
   */
  lemma FoundInWorkingDirectory(cwd: Directory, pkg: string, name: string, fs: FileSystem)
    requires IsSegment(pkg) && IsSegment(name)
    requires ProbePath(cwd, name) in fs.files && ProbePath(cwd + [pkg], name) !in fs.files
    ensures forall options | options in {OnlyFilePath(name), OnlyFilePath(pkg + "/" + name),
                                         FindConfigFileOptions(name, Some(pkg), None, None),
                                         FindConfigFileOptions(name, None, Some(".."), None)} ::
      && FindConfigFile(options, cwd, fs) == FoundConfigFile(Render(cwd) + "/" + name)
      && LegacyIndex.FindConfigFile(options, cwd, fs) == Ok(Some(Render(cwd) + "/" + name))
  {
    FoundByName(cwd, name, fs);
    FoundAboveStop(cwd, name, fs);
    FoundFromBelow(cwd, pkg, name, fs);
    FoundFromStartDirectory(cwd, pkg, name, fs);
  }

  /** The bare name is searched for from the working directory, where the file is. */
  lemma FoundByName(cwd: Directory, name: string, fs: FileSystem)
    requires IsSegment(name) && ProbePath(cwd, name) in fs.files
    ensures FindConfigFile(OnlyFilePath(name), cwd, fs) == FoundConfigFile(Render(cwd) + "/" + name)
    ensures LegacyIndex.FindConfigFile(OnlyFilePath(name), cwd, fs) == Ok(Some(Render(cwd) + "/" + name))
  {
    ResolveSegment(cwd, name);
    assert Dirname(cwd + [name]) == cwd;
    var probe := (directory: Path) => Probe(fs.files, name, directory);
    FindFileUpStep(cwd, None, probe);
  }

  /** With `..` as stop directory the walk may still look in the start directory itself. */
  lemma FoundAboveStop(cwd: Directory, name: string, fs: FileSystem)
    requires IsSegment(name) && ProbePath(cwd, name) in fs.files
    ensures
      var options := FindConfigFileOptions(name, None, Some(".."), None);
      && FindConfigFile(options, cwd, fs) == FoundConfigFile(Render(cwd) + "/" + name)
      && LegacyIndex.FindConfigFile(options, cwd, fs) == Ok(Some(Render(cwd) + "/" + name))
  {
    ResolveSegment(cwd, name);
    assert Dirname(cwd + [name]) == cwd;
    var probe := (directory: Path) => Probe(fs.files, name, directory);
    FindFileUpStep(cwd, Some(Resolve(cwd, "..")), probe);
  }

  /** The file path `pkg/name` starts the walk in `pkg`, where it misses; it goes on to the working directory. */
  lemma FoundFromBelow(cwd: Directory, pkg: string, name: string, fs: FileSystem)
    requires IsSegment(pkg) && IsSegment(name)
    requires ProbePath(cwd, name) in fs.files && ProbePath(cwd + [pkg], name) !in fs.files
    ensures FindConfigFile(OnlyFilePath(pkg + "/" + name), cwd, fs) == FoundConfigFile(Render(cwd) + "/" + name)
    ensures LegacyIndex.FindConfigFile(OnlyFilePath(pkg + "/" + name), cwd, fs) == Ok(Some(Render(cwd) + "/" + name))
  {
    var below := cwd + [pkg];
    ResolveBelow(cwd, pkg, name);
    ResolveSegment(below, name);
    assert Dirname(below + [name]) == below;
    WalkFromBelow(cwd, pkg, name, fs);
  }

  /** The start directory `pkg` starts the walk there, where it misses; it goes on to the working directory. */
  lemma FoundFromStartDirectory(cwd: Directory, pkg: string, name: string, fs: FileSystem)
    requires IsSegment(pkg) && IsSegment(name)
    requires ProbePath(cwd, name) in fs.files && ProbePath(cwd + [pkg], name) !in fs.files
    ensures
      var options := FindConfigFileOptions(name, Some(pkg), None, None);
      && FindConfigFile(options, cwd, fs) == FoundConfigFile(Render(cwd) + "/" + name)
      && LegacyIndex.FindConfigFile(options, cwd, fs) == Ok(Some(Render(cwd) + "/" + name))
  {
    var below := cwd + [pkg];
    ResolveSegment(cwd, pkg);
    ResolveSegment(below, name);
    assert Dirname(below + [name]) == below;
    WalkFromBelow(cwd, pkg, name, fs);
  }

  /** From `pkg`, with no stop directory, the walk misses there and reaches the file in the working directory. */
  lemma WalkFromBelow(cwd: Directory, pkg: string, name: string, fs: FileSystem)
    requires IsSegment(pkg) && IsSegment(name)
    requires ProbePath(cwd, name) in fs.files && ProbePath(cwd + [pkg], name) !in fs.files
    ensures FindUp(NormalizedOptions(name, cwd + [pkg], None, false), fs.files) == Some(ProbePath(cwd, name))
  {
    var below := cwd + [pkg];
    assert Dirname(below) == cwd;
    var probe := (directory: Path) => Probe(fs.files, name, directory);
    FindFileUpStep(cwd, None, probe);
    FindFileUpStep(below, None, probe);
  }

  /**
   * The stop directory bounds the walk: starting in `pkg/client` and stopping at `pkg`, a file
   * that exists only in the working directory is not found, and the report names the start.
   */
  lemma StopDirectoryBoundsTheWalk(cwd: Directory, pkg: string, client: string, name: string, fs: FileSystem)
    requires IsSegment(pkg) && IsSegment(client) && IsSegment(name)
    requires ProbePath(cwd + [pkg, client], name) !in fs.files && ProbePath(cwd + [pkg], name) !in fs.files
    ensures
      var options := FindConfigFileOptions(name, Some(pkg + "/" + client), Some(pkg), None);
      && FindConfigFile(options, cwd, fs) == FindDiagnostics([Diagnostic(
           ConfigSearch.NotFoundMessage(name, Render(cwd + [pkg, client])), NOT_FOUND_CODE, Error, None, None, None)])
      && LegacyIndex.FindConfigFile(options, cwd, fs) == Ok(None)
  {
    var start := cwd + [pkg, client];
    var stop := cwd + [pkg];
    ResolveBelow(cwd, pkg, client);
    ResolveSegment(cwd + [pkg], client);
    assert cwd + [pkg] + [client] == start;
    ResolveSegment(start, name);
    ResolveSegment(cwd, pkg);
    assert Dirname(start + [name]) == start;
    assert Basename(start + [name]) == name;
    assert Dirname(start) == stop;
    var probe := (directory: Path) => Probe(fs.files, name, directory);
    assert FindFileUp(stop, Some(stop), probe) == None;
    assert FindFileUp(start, Some(stop), probe) == None;
  }

  /**
   * An absolute file path whose directory is the working directory, given together with the
   * start directory `pkg`, is the usage error: the message cites the working directory as
   * expected and `pkg` below it as received.
   */
  lemma AbsolutePathAgainstOtherStartDirectory(cwd: Directory, pkg: string, name: string, fs: FileSystem)
    requires IsSegment(pkg) && IsSegment(name)
    ensures
      var options := FindConfigFileOptions(Render(cwd) + "/" + name, Some(pkg), None, None);
      var message := MismatchMessage(Render(cwd), Render(cwd + [pkg]));
      && FindConfigFile(options, cwd, fs) == FindDiagnostics([Diagnostic(message, MISMATCH_CODE, Error, None, None, None)])
      && LegacyIndex.FindConfigFile(options, cwd, fs) == Throw(message)
  {
    var options := FindConfigFileOptions(Render(cwd) + "/" + name, Some(pkg), None, None);
    ResolveSegment(cwd, pkg);
    ResolveRendered(cwd + [pkg], cwd, name);
    assert Dirname(cwd + [name]) == cwd;
    assert StartDirectory(options, cwd) == cwd;
    if Render(cwd) == Render(cwd + [pkg]) {
      RenderInjective(cwd, cwd + [pkg]);
    }
    assert IsMismatch(options, cwd);
    MismatchIsReportedFirst(options, cwd, fs);
  }

  /**
   * A file path below a directory `deep` that does not exist, with the start directory required
   * to exist, reports the missing directory instead of searching (without the requirement the
   * search goes on above it, as `FoundInWorkingDirectory` shows for `pkg`).
   */
  lemma MissingStartDirectory(cwd: Directory, deep: string, name: string, fs: FileSystem)
    requires IsSegment(deep) && IsSegment(name)
    requires Render(cwd + [deep]) !in fs.entries
    ensures
      var options := FindConfigFileOptions(deep + "/" + name, None, None, Some(true));
      && FindConfigFile(options, cwd, fs) == FindDiagnostics([Diagnostic(
           MissingDirectoryMessage(Render(cwd + [deep])), MISSING_DIRECTORY_CODE, Error, None, None, None)])
      && LegacyIndex.FindConfigFile(options, cwd, fs) == Throw(LegacyIndex.MissingStartMessage(Render(cwd + [deep])))
  {
    ResolveBelow(cwd, deep, name);
    ResolveSegment(cwd + [deep], name);
    assert Dirname(cwd + [deep] + [name]) == cwd + [deep];
  }
}
