/**
 * The fail-soft pipeline of src/resolve-ts-config.ts: find the file, read it, parse it, hand it to
 * the merge/validate stage. The first stage that fails decides the result; every failure is a
 * list of diagnostics, never an exception.
 */
module ConfigResolve {
  import opened Wrappers
  import opened Paths
  import opened Diagnostics
  import opened ConfigSearch

  /** `ResolveTsConfigOptions`: like the search options, with an optional file path. */
  datatype ResolveTsConfigOptions = ResolveTsConfigOptions(
    filePath: Option<string>,
    startDirectory: Option<string>,
    stopDirectory: Option<string>,
    startDirectoryShouldExists: Option<bool>)

  /** What `ts.parseConfigFileTextToJson` returns: the parsed value and at most one error. */
  datatype ParseResult<J> = ParseResult(config: J, error: Option<Diagnostic>)

  /** What `ts.parseJsonConfigFileContent` returns (`ts.ParsedCommandLine`), reduced to its parts. */
  datatype ParsedCommandLine<J> = ParsedCommandLine(options: J, fileNames: seq<string>, raw: J, errors: seq<Diagnostic>)

  /**
   * The environment of one call: the current directory, the file system, and the two TypeScript
   * collaborators, which the model leaves uninterpreted. `parseJsonConfigFileContent` receives the
   * parsed value, the containing directory and the configuration file path.
   */
  datatype Host<!J> = Host(
    cwd: Directory,
    fs: FileSystem,
    parseConfigFileTextToJson: (string, string) -> ParseResult<J>,
    parseJsonConfigFileContent: (J, string, string) -> ParsedCommandLine<J>)

  /** `ResolvedTsConfig`: diagnostics or the resolved configuration, never both. */
  datatype ResolvedTsConfig<J> =
    | ResolveDiagnostics(diagnostics: seq<Diagnostic>)
    | ResolvedConfig(config: ParsedCommandLine<J>)

  const DEFAULT_FILE_PATH: string := "tsconfig.json"
  const UNREADABLE_CODE: int := 5083

  function UnreadableMessage(configFilePath: string): string {
    "Cannot read file '" + configFilePath + "'."
  }

  /** The message handed to the factory when the file cannot be read: code 5083, attributed to the file. */
  function UnreadableReport(configFilePath: string): DiagnosticMessage {
    DiagnosticMessage(UnreadableMessage(configFilePath), Some(UNREADABLE_CODE), None, Some(configFilePath))
  }

  /** `{ ...options, filePath }` with `filePath = options?.filePath ?? 'tsconfig.json'`. */
  function SearchOptions(options: Option<ResolveTsConfigOptions>): (s: FindConfigFileOptions)
    ensures options.None? ==> s == FindConfigFileOptions(DEFAULT_FILE_PATH, None, None, None)
    ensures options.Some? ==>
      && s.filePath == options.value.filePath.GetOr(DEFAULT_FILE_PATH)
      && s.startDirectory == options.value.startDirectory
      && s.stopDirectory == options.value.stopDirectory
      && s.startDirectoryShouldExists == options.value.startDirectoryShouldExists
  {
    match options
    case None => FindConfigFileOptions(DEFAULT_FILE_PATH, None, None, None)
    case Some(o) => FindConfigFileOptions(o.filePath.GetOr(DEFAULT_FILE_PATH), o.startDirectory, o.stopDirectory, o.startDirectoryShouldExists)
  }

  /** `ts.sys.readFile`: the text of a readable path, `None` otherwise. */
  function ReadFile(fs: FileSystem, path: string): Option<string> {
    if path in fs.texts then Some(fs.texts[path]) else None
  }

  /** The stages after the search, on the path it found. */
  function ResolveFound<J>(configFilePath: string, host: Host<J>): (r: ResolvedTsConfig<J>)
    ensures !Readable(host.fs, configFilePath) ==>
      r == ResolveDiagnostics([CreateDiagnostic(UnreadableReport(configFilePath))])
    ensures r.ResolvedConfig? ==> Readable(host.fs, configFilePath) && r.config.errors == []
    ensures r.ResolveDiagnostics? ==> |r.diagnostics| > 0
  {
    var jsonText := ReadFile(host.fs, configFilePath);
    if jsonText.None? || jsonText.value == "" then
      ResolveDiagnostics([CreateDiagnostic(UnreadableReport(configFilePath))])
    else
      ParseAndValidate(configFilePath, jsonText.value, host)
  }

  /**
   * The parse and merge/validate stages: the parser's error alone, or the validator's errors as
   * they are, or the configuration.
   */
  function ParseAndValidate<J>(configFilePath: string, jsonText: string, host: Host<J>): (r: ResolvedTsConfig<J>)
    ensures host.parseConfigFileTextToJson(configFilePath, jsonText).error.Some? ==>
      r == ResolveDiagnostics([host.parseConfigFileTextToJson(configFilePath, jsonText).error.value])
    ensures r.ResolvedConfig? <==>
      && host.parseConfigFileTextToJson(configFilePath, jsonText).error.None?
      && r == ResolvedConfig(host.parseJsonConfigFileContent(
           host.parseConfigFileTextToJson(configFilePath, jsonText).config, DirnameOf(configFilePath), configFilePath))
      && r.config.errors == []
    ensures r.ResolveDiagnostics? ==> |r.diagnostics| > 0
  {
    var configObject := host.parseConfigFileTextToJson(configFilePath, jsonText);
    if configObject.error.Some? then
      ResolveDiagnostics([configObject.error.value])
    else
      var parsedCommandLine := host.parseJsonConfigFileContent(configObject.config, DirnameOf(configFilePath), configFilePath);
      if |parsedCommandLine.errors| > 0 then
        ResolveDiagnostics(parsedCommandLine.errors)
      else
        ResolvedConfig(parsedCommandLine)
  }

  /**
   * `resolveTsConfig`. A failure always carries at least one diagnostic, and a resolved
   * configuration never carries errors.
   */
  function ResolveTsConfig<J>(options: Option<ResolveTsConfigOptions>, host: Host<J>): (r: ResolvedTsConfig<J>)
    ensures r.ResolveDiagnostics? ==> |r.diagnostics| > 0
    ensures r.ResolvedConfig? ==> r.config.errors == []
  {
    match FindConfigFile(SearchOptions(options), host.cwd, host.fs)
    case FindDiagnostics(diagnostics) => ResolveDiagnostics(diagnostics)
    case FoundConfigFile(configFilePath) => ResolveFound(configFilePath, host)
  }

  /** `ts.sys.readFile` gives a non-empty text (a missing or empty file fails the read stage). */
  predicate Readable(fs: FileSystem, path: string) {
    path in fs.texts && fs.texts[path] != ""
  }

  /** The diagnostics of the search are returned as they are. */
  lemma SearchDiagnosticsPassThrough<J>(options: Option<ResolveTsConfigOptions>, host: Host<J>)
    requires FindConfigFile(SearchOptions(options), host.cwd, host.fs).FindDiagnostics?
    ensures ResolveTsConfig(options, host)
      == ResolveDiagnostics(FindConfigFile(SearchOptions(options), host.cwd, host.fs).diagnostics)
  {
  }

  /**
   * A found file that is missing or empty gives one 5083 diagnostic, `Cannot read file '<path>'.`;
   * the message handed to the factory is attributed to that path.
   */
  lemma UnreadableFileIsReported<J>(options: Option<ResolveTsConfigOptions>, host: Host<J>, configFilePath: string)
    requires FindConfigFile(SearchOptions(options), host.cwd, host.fs) == FoundConfigFile(configFilePath)
    requires !Readable(host.fs, configFilePath)
    ensures ResolveTsConfig(options, host) == ResolveDiagnostics([CreateDiagnostic(UnreadableReport(configFilePath))])
    ensures UnreadableReport(configFilePath).file == Some(configFilePath)
    ensures ResolveTsConfig(options, host).diagnostics[0]
      == Diagnostic(UnreadableMessage(configFilePath), UNREADABLE_CODE, Error, None, None, None)
  {
  }

  /** A parser error is returned alone and unchanged. */
  lemma ParseErrorPassesThrough<J>(options: Option<ResolveTsConfigOptions>, host: Host<J>, configFilePath: string)
    requires FindConfigFile(SearchOptions(options), host.cwd, host.fs) == FoundConfigFile(configFilePath)
    requires Readable(host.fs, configFilePath)
    requires host.parseConfigFileTextToJson(configFilePath, host.fs.texts[configFilePath]).error.Some?
    ensures ResolveTsConfig(options, host) == ResolveDiagnostics(
      [host.parseConfigFileTextToJson(configFilePath, host.fs.texts[configFilePath]).error.value])
  {
  }

  /** Errors of the merge/validate stage are returned unchanged, all of them and in their order. */
  lemma ValidationErrorsPassThrough<J>(options: Option<ResolveTsConfigOptions>, host: Host<J>, configFilePath: string)
    requires FindConfigFile(SearchOptions(options), host.cwd, host.fs) == FoundConfigFile(configFilePath)
    requires Readable(host.fs, configFilePath)
    requires host.parseConfigFileTextToJson(configFilePath, host.fs.texts[configFilePath]).error.None?
    requires
      var parsed := host.parseConfigFileTextToJson(configFilePath, host.fs.texts[configFilePath]);
      |host.parseJsonConfigFileContent(parsed.config, DirnameOf(configFilePath), configFilePath).errors| > 0
    ensures
      var parsed := host.parseConfigFileTextToJson(configFilePath, host.fs.texts[configFilePath]);
      ResolveTsConfig(options, host) == ResolveDiagnostics(
        host.parseJsonConfigFileContent(parsed.config, DirnameOf(configFilePath), configFilePath).errors)
  {
  }

  /**
   * A configuration is returned exactly when every stage passes: the file is found and readable,
   * the parser reports no error and the merge/validate stage no errors. It is then the merge
   * result for the parsed value, the file's directory and the file's path.
   */
  lemma ResolvedOnlyWhenEveryStagePasses<J>(options: Option<ResolveTsConfigOptions>, host: Host<J>)
    ensures ResolveTsConfig(options, host).ResolvedConfig? <==>
      var found := FindConfigFile(SearchOptions(options), host.cwd, host.fs);
      && found.FoundConfigFile?
      && Readable(host.fs, found.configFilePath)
      && host.parseConfigFileTextToJson(found.configFilePath, host.fs.texts[found.configFilePath]).error.None?
      && |host.parseJsonConfigFileContent(
            host.parseConfigFileTextToJson(found.configFilePath, host.fs.texts[found.configFilePath]).config,
            DirnameOf(found.configFilePath), found.configFilePath).errors| == 0
    ensures ResolveTsConfig(options, host).ResolvedConfig? ==>
      var p := FindConfigFile(SearchOptions(options), host.cwd, host.fs).configFilePath;
      ResolveTsConfig(options, host).config == host.parseJsonConfigFileContent(
        host.parseConfigFileTextToJson(p, host.fs.texts[p]).config, DirnameOf(p), p)
  {
  }
}
