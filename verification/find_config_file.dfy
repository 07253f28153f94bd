/**
 * Locating a configuration file, src/find-config-file.ts: the options are checked and normalised
 * (`normalizeOptions`), then the directories from the start directory upwards are probed for
 * `<directory>/<fileName>` (`findConfigFile`). Every failure is one diagnostic, never an exception.
 */
module ConfigSearch {
  import opened Wrappers
  import opened Paths
  import opened Diagnostics
  import opened FileUp

  /**
   * The read-only file-system queries of one call: the paths `fs.existsSync` accepts, the paths
   * `ts.sys.fileExists` accepts, and what `ts.sys.readFile` returns for each readable path.
   */
  datatype FileSystem = FileSystem(entries: set<string>, files: set<string>, texts: map<string, string>)

  /** `FindConfigFileOptions`; absent optional fields are `None`. */
  datatype FindConfigFileOptions = FindConfigFileOptions(
    filePath: string,
    startDirectory: Option<string>,
    stopDirectory: Option<string>,
    startDirectoryShouldExists: Option<bool>)

  /** `NormalizedOptions`: what the search needs, derived once per call. */
  datatype NormalizedOptions = NormalizedOptions(
    fileName: string,
    startDirectory: Directory,
    stopDirectory: Option<Directory>,
    startDirectoryShouldExists: bool)

  /** `NormalizeOptions`: diagnostics or normalised options, never both. */
  datatype NormalizeResult =
    | OptionsInvalid(diagnostics: seq<Diagnostic>)
    | OptionsNormalized(normalizedOptions: NormalizedOptions)

  /** `FindConfigFile`: diagnostics or the path of the file found, never both. */
  datatype FindConfigFileResult =
    | FindDiagnostics(diagnostics: seq<Diagnostic>)
    | FoundConfigFile(configFilePath: string)

  const MISMATCH_CODE: int := -100
  const MISSING_DIRECTORY_CODE: int := 6148
  const NOT_FOUND_CODE: int := 5081

  /** The fixed start of the mismatch message (kept as a constant so proofs need not unfold it). */
  const MISMATCH_PREFIX: string :=
    "Do not specify the 'startDirectory' option if you give an absolute 'filePath' or they must be equal. Expected '"

  /** JavaScript truthiness of an optional string: present and not empty. */
  predicate Truthy(s: Option<string>) {
    s.Some? && s.value != ""
  }

  function MismatchMessage(expected: string, received: string): string {
    MISMATCH_PREFIX + expected + "', received '" + received + "'."
  }

  function MissingDirectoryMessage(directory: string): string {
    "Directory '" + directory + "' does not exist, skipping all lookups in it."
  }

  function NotFoundMessage(fileName: string, directory: string): string {
    "Cannot find a '" + fileName + "' file at the current directory: '" + directory + "'."
  }

  /**
   * `path.resolve(options.startDirectory ?? process.cwd(), options.filePath)`. Rendering a resolved
   * path already uses `/` only, so the `normalizePathSeparator` applied to it changes nothing
   * (lemma `Paths.RenderIsNormalized`).
   */
  function AbsolutePath(options: FindConfigFileOptions, cwd: Directory): (p: Directory)
    ensures IsAbsolute(options.filePath) ==> p == Resolve([], options.filePath)
  {
    var base := if options.startDirectory.Some? then Resolve(cwd, options.startDirectory.value) else cwd;
    Resolve(base, options.filePath)
  }

  /** The directory that holds the resolved file path: where the search starts. */
  function StartDirectory(options: FindConfigFileOptions, cwd: Directory): Directory {
    Dirname(AbsolutePath(options, cwd))
  }

  /** The usage error: an absolute `filePath` whose directory is not the given `startDirectory`. */
  predicate IsMismatch(options: FindConfigFileOptions, cwd: Directory) {
    && Truthy(options.startDirectory)
    && IsAbsolute(options.filePath)
    && Render(StartDirectory(options, cwd)) != Render(Resolve(cwd, options.startDirectory.value))
  }

  /** The precondition error: the start directory is required to exist and does not. */
  predicate IsMissingStart(options: FindConfigFileOptions, cwd: Directory, fs: FileSystem) {
    options.startDirectoryShouldExists == Some(true) && Render(StartDirectory(options, cwd)) !in fs.entries
  }

  /**
   * The options record built once both checks pass: the base name and the directory of the
   * resolved path, the stop directory resolved only when it is a non-empty string, and the flag
   * made boolean (`Boolean(...)`).
   */
  function Derive(options: FindConfigFileOptions, cwd: Directory): (n: NormalizedOptions)
    ensures n.startDirectory == StartDirectory(options, cwd)
    ensures AbsolutePath(options, cwd) != [] ==> n.startDirectory + [n.fileName] == AbsolutePath(options, cwd)
    ensures AbsolutePath(options, cwd) == [] ==> n.fileName == ""
    ensures n.stopDirectory.Some? <==> Truthy(options.stopDirectory)
    ensures n.startDirectoryShouldExists <==> options.startDirectoryShouldExists == Some(true)
  {
    var absolutePath := AbsolutePath(options, cwd);
    NormalizedOptions(
      Basename(absolutePath),
      Dirname(absolutePath),
      if Truthy(options.stopDirectory) then Some(Resolve(cwd, options.stopDirectory.value)) else None,
      options.startDirectoryShouldExists == Some(true))
  }

  /**
   * `normalizeOptions`: the mismatch check first, then the existence check, then the derived
   * options; the stop directory is resolved only when it is a non-empty string.
   */
  function NormalizeOptions(options: FindConfigFileOptions, cwd: Directory, fs: FileSystem): (r: NormalizeResult)
    ensures r.OptionsInvalid? ==> |r.diagnostics| == 1 && r.diagnostics[0].category == Error
  {
    var absolutePath := AbsolutePath(options, cwd);
    var startDirectory := Dirname(absolutePath);
    if Truthy(options.startDirectory) && IsAbsolute(options.filePath)
      && Render(startDirectory) != Render(Resolve(cwd, options.startDirectory.value))
    then
      var providedStartDirectory := Resolve(cwd, options.startDirectory.value);
      OptionsInvalid([CreateDiagnostic(Coded(MISMATCH_CODE,
        MismatchMessage(Render(startDirectory), Render(providedStartDirectory))))])
    else if options.startDirectoryShouldExists == Some(true) && Render(startDirectory) !in fs.entries then
      OptionsInvalid([CreateDiagnostic(Coded(MISSING_DIRECTORY_CODE, MissingDirectoryMessage(Render(startDirectory))))])
    else
      OptionsNormalized(Derive(options, cwd))
  }

  /** The string probed in `directory`: the literal `${directory}/${fileName}`. */
  function ProbePath(directory: Path, fileName: string): (p: string)
    ensures p != [] && p[0] == '/'
  {
    Render(directory) + "/" + fileName
  }

  /** The search callback: the probed path when `ts.sys.fileExists` accepts it. */
  function Probe(files: set<string>, fileName: string, directory: Path): (r: Option<string>)
    ensures r.Some? <==> ProbePath(directory, fileName) in files
    ensures r.Some? ==> r.value == ProbePath(directory, fileName) && r.value in files
  {
    var filePath := ProbePath(directory, fileName);
    if filePath in files then Some(filePath) else None
  }

  /** The call of `findFileUp` with the probe for `n.fileName`. */
  function FindUp(n: NormalizedOptions, files: set<string>): Option<string> {
    FindFileUp(n.startDirectory, n.stopDirectory, (directory: Path) => Probe(files, n.fileName, directory))
  }

  /**
   * The walk of `findConfigFile` once the options are normalised: the first existing candidate
   * walking up, or one not-found diagnostic naming the file and the start directory.
   */
  function Search(n: NormalizedOptions, files: set<string>): (r: FindConfigFileResult)
    ensures r.FindDiagnostics? ==> |r.diagnostics| == 1 && r.diagnostics[0].category == Error
    ensures r.FoundConfigFile? ==> r.configFilePath in files
  {
    var configFilePath := FindUp(n, files);
    if configFilePath.Some? && configFilePath.value != "" then
      FoundConfigFile(configFilePath.value)
    else
      FindDiagnostics([CreateDiagnostic(Coded(NOT_FOUND_CODE, NotFoundMessage(n.fileName, Render(n.startDirectory))))])
  }

  /**
   * `findConfigFile`: the option diagnostics unchanged, or the result of the walk. Failure always
   * carries exactly one Error diagnostic, and a found path is always one that
   * `ts.sys.fileExists` accepts.
   */
  function FindConfigFile(options: FindConfigFileOptions, cwd: Directory, fs: FileSystem): (r: FindConfigFileResult)
    ensures r.FindDiagnostics? ==> |r.diagnostics| == 1 && r.diagnostics[0].category == Error
    ensures r.FoundConfigFile? ==> r.configFilePath in fs.files
  {
    match NormalizeOptions(options, cwd, fs)
    case OptionsInvalid(diagnostics) => FindDiagnostics(diagnostics)
    case OptionsNormalized(n) => Search(n, fs.files)
  }

  /**
   * The mismatch is a usage error reported on its own: one -100 diagnostic citing both
   * directories, whatever the existence flag and the file system say, and no search.
   */
  lemma MismatchIsReportedFirst(options: FindConfigFileOptions, cwd: Directory, fs: FileSystem)
    requires IsMismatch(options, cwd)
    ensures FindConfigFile(options, cwd, fs) == FindDiagnostics([Diagnostic(
      MismatchMessage(Render(StartDirectory(options, cwd)), Render(Resolve(cwd, options.startDirectory.value))),
      MISMATCH_CODE, Error, None, None, None)])
  {
  }

  /** A required start directory that is missing gives one 6148 diagnostic naming it, and no search. */
  lemma MissingStartDirectoryIsReported(options: FindConfigFileOptions, cwd: Directory, fs: FileSystem)
    requires !IsMismatch(options, cwd) && IsMissingStart(options, cwd, fs)
    ensures FindConfigFile(options, cwd, fs) == FindDiagnostics([Diagnostic(
      MissingDirectoryMessage(Render(StartDirectory(options, cwd))),
      MISSING_DIRECTORY_CODE, Error, None, None, None)])
  {
  }

  /**
   * The options are accepted exactly when neither check fails; then the file name and the start
   * directory split the resolved path, the stop directory is resolved only when given non-empty,
   * and the flag is the option made boolean.
   */
  lemma NormalizeOptionsAccepts(options: FindConfigFileOptions, cwd: Directory, fs: FileSystem)
    ensures NormalizeOptions(options, cwd, fs).OptionsNormalized? <==>
      !IsMismatch(options, cwd) && !IsMissingStart(options, cwd, fs)
    ensures NormalizeOptions(options, cwd, fs).OptionsNormalized? ==>
      var n := NormalizeOptions(options, cwd, fs).normalizedOptions;
      && n.startDirectory == StartDirectory(options, cwd)
      && (AbsolutePath(options, cwd) != [] ==> n.startDirectory + [n.fileName] == AbsolutePath(options, cwd))
      && (Truthy(options.stopDirectory) ==> n.stopDirectory == Some(Resolve(cwd, options.stopDirectory.value)))
      && (!Truthy(options.stopDirectory) ==> n.stopDirectory == None)
      && n.startDirectoryShouldExists == (options.startDirectoryShouldExists == Some(true))
  {
    var a := AbsolutePath(options, cwd);
    if a != [] {
      assert a == a[..|a| - 1] + [a[|a| - 1]];
    }
  }

  /**
   * The walk succeeds exactly when some directory from the start directory up to the stop
   * directory (or the root) holds the file, and it returns `<dir>/<fileName>` for the closest
   * such `dir`.
   */
  lemma {:induction false} FoundIsClosestExisting(n: NormalizedOptions, files: set<string>)
    ensures
      var start, floor := n.startDirectory, Floor(n.startDirectory, n.stopDirectory);
      && (Search(n, files).FoundConfigFile? <==>
          exists k :: floor <= k <= |start| && ProbePath(start[..k], n.fileName) in files)
      && (Search(n, files).FoundConfigFile? ==>
          exists k :: floor <= k <= |start|
            && Search(n, files).configFilePath == ProbePath(start[..k], n.fileName)
            && forall j :: k < j <= |start| ==> ProbePath(start[..j], n.fileName) !in files)
    ensures FindUp(n, files).Some? <==> Search(n, files).FoundConfigFile?
    ensures FindUp(n, files).Some? ==> FindUp(n, files).value == Search(n, files).configFilePath
  {
    var callback := (directory: Path) => Probe(files, n.fileName, directory);
    var hit := FindFileUp(n.startDirectory, n.stopDirectory, callback);
  }

  /**
   * When no candidate exists the walk reports one 5081 diagnostic that names the file and the
   * start directory, not the last directory probed.
   */
  lemma NotFoundNamesStartDirectory(n: NormalizedOptions, files: set<string>)
    requires forall k :: Floor(n.startDirectory, n.stopDirectory) <= k <= |n.startDirectory| ==>
      ProbePath(n.startDirectory[..k], n.fileName) !in files
    ensures Search(n, files) == FindDiagnostics([Diagnostic(
      NotFoundMessage(n.fileName, Render(n.startDirectory)), NOT_FOUND_CODE, Error, None, None, None)])
  {
    FoundIsClosestExisting(n, files);
  }

  /** Once the options are accepted, `findConfigFile` is the walk over the normalised options. */
  lemma FindConfigFileSearches(options: FindConfigFileOptions, cwd: Directory, fs: FileSystem)
    ensures NormalizeOptions(options, cwd, fs).OptionsNormalized? ==>
      FindConfigFile(options, cwd, fs) == Search(NormalizeOptions(options, cwd, fs).normalizedOptions, fs.files)
    ensures NormalizeOptions(options, cwd, fs).OptionsInvalid? ==>
      FindConfigFile(options, cwd, fs) == FindDiagnostics(NormalizeOptions(options, cwd, fs).diagnostics)
  {
  }
}
