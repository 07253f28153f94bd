/**
 * The older single-file version, src/index.ts. It shares the separator normalisation, the walk up
 * and the diagnostic factory with the split modules and differs in how errors travel:
 * `normalizeOptions` throws, `findConfigFile` returns an optional path, and `resolveTSConfig`
 * turns whatever was thrown into one diagnostic.
 */
module LegacyIndex {
  import opened Wrappers
  import opened Paths
  import opened Diagnostics
  import opened ConfigSearch
  import opened ConfigResolve

  /** The fixed parts of the message thrown for a missing start directory. */
  const MISSING_START_PREFIX: string := "The start directory '"
  const MISSING_START_SUFFIX: string :=
    "' does not exists but it should because you have set the 'startDirectoryShouldExists' option to true."

  function MissingStartMessage(directory: string): string {
    MISSING_START_PREFIX + directory + MISSING_START_SUFFIX
  }

  function NotFoundMessage(filePath: string): string {
    "Cannot find a '" + filePath + "' file."
  }

  function UnreadableMessage(configFilePath: string): string {
    "Cannot read '" + configFilePath + "' file."
  }

  /** `normalizeOptions`: the same checks in the same order, but each failure is thrown. */
  function NormalizeOptions(options: FindConfigFileOptions, cwd: Directory, fs: FileSystem): (r: Outcome<NormalizedOptions>)
    ensures r.Ok? <==> !IsMismatch(options, cwd) && !IsMissingStart(options, cwd, fs)
    ensures r.Ok? ==> r.value == Derive(options, cwd)
    ensures IsMismatch(options, cwd) ==>
      r == Throw(MismatchMessage(Render(StartDirectory(options, cwd)), Render(Resolve(cwd, options.startDirectory.value))))
    ensures !IsMismatch(options, cwd) && IsMissingStart(options, cwd, fs) ==>
      r == Throw(MissingStartMessage(Render(StartDirectory(options, cwd))))
  {
    var startDirectory := StartDirectory(options, cwd);
    if Truthy(options.startDirectory) && IsAbsolute(options.filePath)
      && Render(startDirectory) != Render(Resolve(cwd, options.startDirectory.value))
    then
      Throw(MismatchMessage(Render(startDirectory), Render(Resolve(cwd, options.startDirectory.value))))
    else if options.startDirectoryShouldExists == Some(true) && Render(startDirectory) !in fs.entries then
      Throw(MissingStartMessage(Render(startDirectory)))
    else
      Ok(Derive(options, cwd))
  }

  /** `findConfigFile`: the walk's result itself, `None` when nothing is found; option errors are thrown. */
  function FindConfigFile(options: FindConfigFileOptions, cwd: Directory, fs: FileSystem): (r: Outcome<Option<string>>)
    ensures r.Throw? <==> IsMismatch(options, cwd) || IsMissingStart(options, cwd, fs)
    ensures r.Throw? ==> r.message == NormalizeOptions(options, cwd, fs).message
    ensures r.Ok? && r.value.Some? ==> r.value.value in fs.files
  {
    match NormalizeOptions(options, cwd, fs)
    case Throw(message) => Throw(message)
    case Ok(n) =>
      FoundIsClosestExisting(n, fs.files);
      Ok(FindUp(n, fs.files))
  }

  /**
   * `resolveTSConfig`: the staged pipeline inside a `try`; not found and unreadable are uncoded
   * Error diagnostics, and a thrown message becomes one uncoded Error diagnostic. A failure always
   * carries at least one diagnostic, and a resolved configuration never carries errors.
   */
  function ResolveTSConfig<J>(options: Option<ResolveTsConfigOptions>, host: Host<J>): (r: ResolvedTsConfig<J>)
    ensures r.ResolveDiagnostics? ==> |r.diagnostics| > 0
    ensures r.ResolvedConfig? ==> r.config.errors == []
  {
    var settings := SearchOptions(options);
    match FindConfigFile(settings, host.cwd, host.fs)
    case Throw(message) => ResolveDiagnostics([CreateDiagnostic(Plain(message))])
    case Ok(configFilePath) =>
      if configFilePath.None? || configFilePath.value == "" then
        ResolveDiagnostics([CreateDiagnostic(Plain(NotFoundMessage(settings.filePath)))])
      else
        var jsonText := ReadFile(host.fs, configFilePath.value);
        if jsonText.None? || jsonText.value == "" then
          ResolveDiagnostics([CreateDiagnostic(Plain(UnreadableMessage(configFilePath.value)))])
        else
          ParseAndValidate(configFilePath.value, jsonText.value, host)
  }

  /**
   * The two `normalizeOptions` accept the same options and derive the same record; the mismatch
   * is thrown with the text the split version reports, and a missing start directory is thrown
   * only when there is no mismatch.
   */
  lemma NormalizeOptionsAgrees(options: FindConfigFileOptions, cwd: Directory, fs: FileSystem)
    ensures NormalizeOptions(options, cwd, fs).Ok? <==> ConfigSearch.NormalizeOptions(options, cwd, fs).OptionsNormalized?
    ensures NormalizeOptions(options, cwd, fs).Ok? ==>
      NormalizeOptions(options, cwd, fs).value == ConfigSearch.NormalizeOptions(options, cwd, fs).normalizedOptions
    ensures IsMismatch(options, cwd) ==>
      && NormalizeOptions(options, cwd, fs)
           == Throw(MismatchMessage(Render(StartDirectory(options, cwd)), Render(Resolve(cwd, options.startDirectory.value))))
      && NormalizeOptions(options, cwd, fs).message == ConfigSearch.NormalizeOptions(options, cwd, fs).diagnostics[0].messageText
    ensures !IsMismatch(options, cwd) && IsMissingStart(options, cwd, fs) ==>
      NormalizeOptions(options, cwd, fs) == Throw(MissingStartMessage(Render(StartDirectory(options, cwd))))
  {
  }

  /**
   * The two `findConfigFile` find the same path; where the split version reports option
   * diagnostics this one throws, and where it reports not found this one returns `None`.
   */
  lemma FindConfigFileAgrees(options: FindConfigFileOptions, cwd: Directory, fs: FileSystem)
    ensures FindConfigFile(options, cwd, fs).Throw? <==> ConfigSearch.NormalizeOptions(options, cwd, fs).OptionsInvalid?
    ensures (FindConfigFile(options, cwd, fs).Ok? && FindConfigFile(options, cwd, fs).value.Some?)
      <==> ConfigSearch.FindConfigFile(options, cwd, fs).FoundConfigFile?
    ensures ConfigSearch.FindConfigFile(options, cwd, fs).FoundConfigFile? ==>
      FindConfigFile(options, cwd, fs).value.value == ConfigSearch.FindConfigFile(options, cwd, fs).configFilePath
    ensures FindConfigFile(options, cwd, fs) == Ok(None) ==>
      ConfigSearch.FindConfigFile(options, cwd, fs).FindDiagnostics?
      && ConfigSearch.FindConfigFile(options, cwd, fs).diagnostics[0].code == NOT_FOUND_CODE
  {
    NormalizeOptionsAgrees(options, cwd, fs);
    if ConfigSearch.NormalizeOptions(options, cwd, fs).OptionsNormalized? {
      FoundIsClosestExisting(ConfigSearch.NormalizeOptions(options, cwd, fs).normalizedOptions, fs.files);
    }
  }

  /** Whatever `findConfigFile` throws becomes exactly one uncoded Error diagnostic with that message. */
  lemma ThrownMessageBecomesDiagnostic<J>(options: Option<ResolveTsConfigOptions>, host: Host<J>)
    requires FindConfigFile(SearchOptions(options), host.cwd, host.fs).Throw?
    ensures ResolveTSConfig(options, host) == ResolveDiagnostics([Diagnostic(
      FindConfigFile(SearchOptions(options), host.cwd, host.fs).message, NO_CODE, Error, None, None, None)])
  {
  }

  /** Not found gives one uncoded Error diagnostic naming the file path as given, not as resolved. */
  lemma NotFoundUsesGivenFilePath<J>(options: Option<ResolveTsConfigOptions>, host: Host<J>)
    requires FindConfigFile(SearchOptions(options), host.cwd, host.fs) == Ok(None)
    ensures ResolveTSConfig(options, host) == ResolveDiagnostics([Diagnostic(
      NotFoundMessage(SearchOptions(options).filePath), NO_CODE, Error, None, None, None)])
  {
  }

  /** A found file that is missing or empty gives one uncoded Error diagnostic naming it. */
  lemma UnreadableFileIsReported<J>(options: Option<ResolveTsConfigOptions>, host: Host<J>, configFilePath: string)
    requires FindConfigFile(SearchOptions(options), host.cwd, host.fs) == Ok(Some(configFilePath))
    requires !Readable(host.fs, configFilePath)
    ensures ResolveTSConfig(options, host) == ResolveDiagnostics([Diagnostic(
      UnreadableMessage(configFilePath), NO_CODE, Error, None, None, None)])
  {
    FindConfigFileAgrees(SearchOptions(options), host.cwd, host.fs);
  }

  /**
   * The two `resolveTsConfig` differ only in error plumbing: they return the same configuration
   * when either succeeds, and the same result whenever the file is found and readable, so parser
   * and validator diagnostics pass through both unchanged.
   */
  lemma ResolveAgreesWithSplitVersion<J>(options: Option<ResolveTsConfigOptions>, host: Host<J>)
    ensures ResolveTSConfig(options, host).ResolvedConfig? <==> ResolveTsConfig(options, host).ResolvedConfig?
    ensures
      var found := ConfigSearch.FindConfigFile(SearchOptions(options), host.cwd, host.fs);
      found.FoundConfigFile? && Readable(host.fs, found.configFilePath) ==>
        ResolveTSConfig(options, host) == ResolveTsConfig(options, host)
    ensures ResolveTSConfig(options, host).ResolvedConfig? ==> ResolveTSConfig(options, host) == ResolveTsConfig(options, host)
  {
    FindConfigFileAgrees(SearchOptions(options), host.cwd, host.fs);
  }
}
