# resolve-tsconfig, modelled in Dafny

resolve-tsconfig finds a TypeScript configuration file and resolves it. It first turns the
caller's options into an absolute file name and a start directory. It then walks up the
directory tree from that start until a directory holds the file, the stop directory is reached,
or the root is reached. Last, it reads the file, parses it and hands the result to TypeScript's
merge and validation stage. Every failure comes back as a list of `ts.Diagnostic` records, not
as an exception. The older single-file version, `src/index.ts`, throws instead and catches in
`resolveTSConfig`.

This project models that core as pure functions over datatypes and proves what each step
promises. The modules are:

- `Wrappers` (wrappers.dfy): `Option`, and `Outcome = Ok | Throw` for the older version's
  exceptions.
- `PathSeparator` (normalize_path_separator.dfy): `normalizePathSeparator`, which collapses
  every run of `/` or `\` into one `/`.
- `Paths` (paths.dfy): absolute paths as sequences of segments, with the root as `[]`. It
  provides `dirname`, `basename`, rendering to a `/`-separated string, and `path.resolve`
  relative to a given working directory.
- `Diagnostics` (create_diagnostic.dfy): the diagnostic record and `createDiagnostic`.
- `FileUp` (find_file_up.dfy): `findFileUp`, the generic walk up with a probe callback.
- `ConfigSearch` (find_config_file.dfy): `normalizeOptions` and `findConfigFile` of the split
  version.
- `ConfigResolve` (resolve_ts_config.dfy): `resolveTsConfig` of the split version.
- `LegacyIndex` (legacy_index.dfy): the older `src/index.ts`. Its `normalizePathSeparator`,
  `findFileUp` and `createDiagnostic` (src/index.ts:5-31, 94-109) are the same code as the
  split modules, so it reuses their models.
- `Scenarios` (scenarios.dfy): the situations the repository's tests check. Each is stated
  for any working directory and any segment names.

`process.cwd()` is a parameter. The file system is a value `FileSystem(entries, files,
texts)`:

- `entries` answers `fs.existsSync`.
- `files` answers `ts.sys.fileExists`.
- `texts` answers `ts.sys.readFile`.

The two TypeScript collaborators, `ts.parseConfigFileTextToJson` and
`ts.parseJsonConfigFileContent`, are function-valued fields of a `Host` and are left
uninterpreted. JavaScript's `-0` default code is the constant `NO_CODE = 0`, since
`-0 === 0`.

Some conventions:

- A path string is rendered as `/` for the root and `/a/b` otherwise. The probe in a
  directory is the literal `${directory}/${fileName}`, so at the root it is `//name`, as in
  the source.
- A well-formed path is one whose segments are non-empty, hold no separator and are neither
  `.` nor `..`, which is what `path.resolve` returns. The type `Paths.Directory` holds the
  well-formed paths; the working directory and the normalised start and stop directories
  have that type.
- `Paths.RenderIsNormalized` shows that, for well-formed paths, a rendered path is already in
  normal form, so the `normalizePathSeparator` the source applies after `path.resolve`
  changes nothing.
- `Paths.RenderInjective` shows that, for well-formed paths, comparing rendered strings, as
  the source does, is the same as comparing paths.
- The split `createDiagnostic` reads its text from `message.message`, while all its callers
  pass `messageText` (see Findings). The model's message record carries `messageText` and an
  optional file path, and follows the callers.
- The factory sets `file` to `undefined` whatever it is given. The model follows that code,
  not the tests that expect a source file there (test/resolve-ts-config.test.ts:38).

## Model

| member | source | states |
|---|---|---|
| PathSeparator.NormalizePathSeparator | src/normalize-path-separator.ts:1-3 | never longer than the input; empty exactly when the input is empty; starts with `/` exactly when the input starts with `/` or `\` |
| PathSeparator.SkipSeparators | src/normalize-path-separator.ts:2 | drops exactly the leading run of separators: the result is a suffix, everything dropped is a separator, and the result does not start with one |
| PathSeparator.NormalizeIsNormal | src/normalize-path-separator.ts:2 | every output is in normal form: no `\` and no two adjacent `/` |
| PathSeparator.NormalizeHasNoBackslashOrDoubleSlash | src/normalize-path-separator.ts:2 | the output contains no `\`, and no position holds `/` followed by `/` |
| PathSeparator.NormalFormIsFixpoint | src/normalize-path-separator.ts:2 | a string already in normal form is returned unchanged |
| PathSeparator.NormalizeIsIdempotent | src/normalize-path-separator.ts:1-3 | normalizing twice gives the same result as normalizing once |
| PathSeparator.SeparatorFreeIsUnchanged | src/normalize-path-separator.ts:2 | a string with no `/` and no `\` is returned unchanged |
| PathSeparator.SkipKeepsNonSeparators | src/normalize-path-separator.ts:2 | skipping a separator run loses no other character |
| PathSeparator.NormalizeKeepsNonSeparators | src/normalize-path-separator.ts:2 | the non-separator characters of input and output are the same sequence, in order |
| PathSeparator.NormalizeSeparatorFreePrefix | src/normalize-path-separator.ts:2 | a separator-free prefix passes through untouched in front of the normalized rest |
| PathSeparator.NormalizeAfterSlash | src/normalize-path-separator.ts:2 | one `/` before a non-separator is kept as the single `/` of its run |
| Paths.Dirname | src/find-file-up.ts:18 | `dirname` returns its argument exactly at the root; elsewhere it drops one segment and returns an ancestor; a well-formed path has a well-formed parent |
| Paths.Basename | src/find-config-file.ts:61 | `basename` is empty at the root; elsewhere the parent followed by the basename is the path, and the basename of a well-formed path is a segment |
| Paths.Join | src/find-config-file.ts:30 | the rendered segments are empty exactly for the root and otherwise start with `/` |
| Paths.Render | src/find-config-file.ts:30 | a rendered path is never empty and starts with `/` |
| Paths.Split | src/find-config-file.ts:30 | a string splits into at least one piece, and no piece holds a separator |
| Paths.Navigate | src/find-config-file.ts:30 | applying relative pieces keeps a well-formed path well-formed |
| Paths.Resolve | src/find-config-file.ts:30 | resolving from a well-formed directory gives a well-formed path |
| Paths.RenderIsNormalized | src/find-config-file.ts:30-34 | the rendered form of a resolved path is a fixpoint of `normalizePathSeparator` |
| Paths.JoinIsNormalized | src/find-config-file.ts:30-34 | the `/`-joined segments are a fixpoint of `normalizePathSeparator` |
| Paths.RenderInjective | src/find-file-up.ts:14 | two well-formed paths with the same string form are equal, so string comparison of directories is path comparison |
| Paths.JoinInjective | src/find-file-up.ts:14 | two well-formed segment lists that join to the same string are equal |
| Paths.LeadingSegmentOf | src/find-file-up.ts:14 | a separator-free segment followed by a separator or the end is recovered as the leading segment |
| Paths.SegmentBoundary | src/find-file-up.ts:14 | two renderings that agree have the same first segment |
| Paths.SplitSeparatorFree | src/find-config-file.ts:30 | a separator-free string is one piece |
| Paths.SplitAtSeparator | src/find-config-file.ts:30 | splitting at the first separator gives the segment before it, then the pieces of the rest |
| Paths.SplitJoined | src/find-config-file.ts:30 | splitting a rendered path gives an empty piece, its segments, then the pieces of what follows |
| Paths.NavigateSegments | src/find-config-file.ts:30 | applying well-formed segments appends them one by one |
| Paths.ResolveRendered | src/find-config-file.ts:30-31 | resolving the absolute string `dir + "/" + name` gives `dir` followed by `name`, from any working directory |
| Paths.SplitRenderedChild | src/find-config-file.ts:30 | the rendered `dir + "/" + name` splits into an empty piece (two at the root), the segments of `dir`, then `name` |
| Paths.NavigateSkipsEmpty | src/find-config-file.ts:30 | an empty piece, as between two separators, does not move the path |
| Paths.ResolveBelow | src/find-config-file.ts:30 | a relative `a/rest` resolves as `rest` from one level below |
| Paths.ResolveSegment | src/find-config-file.ts:30 | a single relative segment resolves to the child of the base |
| Paths.DirnameOf | src/resolve-ts-config.ts:53 | Node's posix `path.dirname` on a string: `.` for a string with no directory part, `/` or `//` at the root, otherwise a proper prefix of the argument |
| Paths.DirnameOfChild | src/resolve-ts-config.ts:53 | `path.dirname` of `dir + "/" + name`, for a segment `name` and a `dir` other than a lone separator, is `dir`: the directory handed to the merge stage |
| Paths.DirnameOfRootChild | src/resolve-ts-config.ts:53 | the probe `//name` at the root has dirname `//`, as in Node |
| Paths.DirnameIgnoresTrailingSeparator | src/resolve-ts-config.ts:53 | a trailing separator does not change `path.dirname`, so `dirname("/a/")` is `/` |
| Diagnostics.CreateDiagnostic | src/create-diagnostic.ts:9-18 | the factory is total; it copies the text; the code is the given one or `-0`; the category is the given one or Error; file, start and length are unset |
| Diagnostics.CreateDiagnosticAsWritten | src/create-diagnostic.ts:9-13 | the factory as written takes its text from the declared `message` field |
| Diagnostics.AsWrittenLosesText | src/create-diagnostic.ts:3-11 | for every record the split callers build, the factory as written yields no text while the corrected one keeps it; code and category agree |
| FileUp.Floor | src/find-file-up.ts:14-22 | the lowest depth the walk reaches is at most the start's depth |
| FileUp.FindFileUp | src/find-file-up.ts:3-25 | defined exactly when some directory from the start up to the stop directory (or the root) has a hit, and then the hit of the closest one; termination is by the shrinking path |
| FileUp.FindFileUpStep | src/find-file-up.ts:8-24 | the four exits: a hit is returned at once even at the stop directory; a miss at the stop directory or at the root is undefined; otherwise the walk continues in the parent |
| FileUp.StopOffTheWayIsIgnored | src/find-file-up.ts:14 | a stop directory that is not the start or one of its ancestors behaves like no stop directory |
| FileUp.ProbesOnlyUpToFloor | src/find-file-up.ts:8-24 | two callbacks that agree between the start and the floor give the same result, so nothing above the floor is probed |
| FileUp.FloorOfParent | src/find-file-up.ts:14-24 | stepping to the parent of a directory that is not the stop directory keeps the floor |
| ConfigSearch.AbsolutePath | src/find-config-file.ts:30 | the resolved file path is well-formed, and an absolute file path resolves to the same path whatever the working or start directory |
| ConfigSearch.Derive | src/find-config-file.ts:59-65 | the normalised record: the start directory is the dirname of the resolved path and, below the root, start directory plus file name give back that path; the stop directory is present exactly when the option is truthy; the flag is true exactly when the option is `true` |
| ConfigSearch.NormalizeOptions | src/find-config-file.ts:29-67 | a rejection is exactly one Error diagnostic |
| ConfigSearch.MismatchIsReportedFirst | src/find-config-file.ts:33-57 | an absolute file path with a truthy start directory that differs from its directory gives exactly one -100 diagnostic citing both directories, before the existence check and without a search |
| ConfigSearch.MissingStartDirectoryIsReported | src/find-config-file.ts:48-56 | with the flag set and the start directory missing, there is exactly one 6148 diagnostic naming it, and no search |
| ConfigSearch.NormalizeOptionsAccepts | src/find-config-file.ts:29-67 | options are accepted exactly when neither check fails. Then the file name and start directory are the basename and dirname of the resolved path, the stop directory is resolved only when truthy, and the flag is made boolean |
| ConfigSearch.ProbePath | src/find-config-file.ts:89 | the probe string is non-empty and absolute |
| ConfigSearch.Probe | src/find-config-file.ts:88-92 | the callback answers exactly when `${directory}/${fileName}` exists, and then answers that string |
| ConfigSearch.Search | src/find-config-file.ts:86-105 | not found is exactly one Error diagnostic, and a found path is one the file system reports as existing |
| ConfigSearch.FindConfigFile | src/find-config-file.ts:79-106 | diagnostics are always exactly one Error diagnostic, and a found path always exists |
| ConfigSearch.FoundIsClosestExisting | src/find-config-file.ts:88-95 | found exactly when some `dir/fileName` exists between the start and the stop directory (or the root); the result is the one for the closest such `dir` |
| ConfigSearch.NotFoundNamesStartDirectory | src/find-config-file.ts:98-105 | when nothing exists on the way up, one 5081 diagnostic names the file and the start directory, not the last directory probed |
| ConfigSearch.FindConfigFileSearches | src/find-config-file.ts:80-92 | option diagnostics are returned as they are; otherwise the result is the search over the normalised options |
| ConfigResolve.SearchOptions | src/resolve-ts-config.ts:27-28 | the file path defaults to `tsconfig.json`, and the other options are forwarded unchanged |
| ConfigResolve.ResolveTsConfig | src/resolve-ts-config.ts:26-63 | a failure always carries at least one diagnostic, and a returned configuration has no errors |
| ConfigResolve.ResolveFound | src/resolve-ts-config.ts:34-62 | a found file that cannot be read gives the one 5083 diagnostic; a configuration is returned only for a readable file and has no errors; a failure carries at least one diagnostic |
| ConfigResolve.ParseAndValidate | src/resolve-ts-config.ts:44-62 | a parser error is returned alone; a configuration is returned exactly when the parser reports no error and the merge result for the parsed value, the file's dirname and path has no errors, and it is that result; a failure carries at least one diagnostic |
| ConfigResolve.SearchDiagnosticsPassThrough | src/resolve-ts-config.ts:28-32 | the search's diagnostics are returned verbatim |
| ConfigResolve.UnreadableFileIsReported | src/resolve-ts-config.ts:34-42 | a found file that is missing or empty gives exactly one 5083 diagnostic `Cannot read file '<path>'.`, and the message handed to the factory is attributed to that path |
| ConfigResolve.ParseErrorPassesThrough | src/resolve-ts-config.ts:44-48 | a parser error is the only diagnostic, unwrapped and unchanged |
| ConfigResolve.ValidationErrorsPassThrough | src/resolve-ts-config.ts:50-60 | a non-empty list of validation errors is returned unchanged, in order |
| ConfigResolve.ResolvedOnlyWhenEveryStagePasses | src/resolve-ts-config.ts:50-62 | a configuration is returned exactly when the file is found and readable, the parser reports no error and validation reports none. It is then the merge result for the parsed value, the file's directory and the file's path |
| LegacyIndex.NormalizeOptions | src/index.ts:50-76 | returns exactly when neither check fails, and then the same record as the split version; otherwise throws the mismatch message first, and the missing-directory message only without a mismatch |
| LegacyIndex.FindConfigFile | src/index.ts:84-92 | throws exactly when an option check fails, with the message `normalizeOptions` throws; a path it returns exists |
| LegacyIndex.NormalizeOptionsAgrees | src/index.ts:50-76 | the throwing `normalizeOptions` accepts the same options and derives the same record. It throws the mismatch message citing both directories, and throws the missing start directory only when there is no mismatch |
| LegacyIndex.FindConfigFileAgrees | src/index.ts:84-92 | throws exactly when the split version reports option diagnostics; finds the same path; returns undefined exactly where the split version reports 5081 |
| LegacyIndex.ResolveTSConfig | src/index.ts:131-174 | a failure always carries at least one diagnostic, and a returned configuration has no errors |
| LegacyIndex.ThrownMessageBecomesDiagnostic | src/index.ts:132-173 | whatever `findConfigFile` throws becomes exactly one Error diagnostic with code `-0` carrying that message |
| LegacyIndex.NotFoundUsesGivenFilePath | src/index.ts:138-142 | not found gives one Error diagnostic `Cannot find a '<filePath>' file.` with the file path as given, not as resolved, and code `-0` |
| LegacyIndex.UnreadableFileIsReported | src/index.ts:144-150 | a found file that is missing or empty gives one Error diagnostic `Cannot read '<path>' file.` with code `-0` |
| LegacyIndex.ResolveAgreesWithSplitVersion | src/index.ts:152-170 | a configuration is returned exactly when the split version returns one, and it is the same; once the file is found and readable, parser and validator results agree exactly |
| Scenarios.FoundInWorkingDirectory | test/find-config-file.test.ts:7-32 | a file in the working directory is found from its bare name, from `pkg/name`, with start directory `pkg`, and with stop directory `..`; the older version returns the same path |
| Scenarios.FoundFromBelow | test/find-config-file.test.ts:10 | from the file path `pkg/name`, the walk misses in `pkg` and finds the file in the working directory, in both versions |
| Scenarios.FoundFromStartDirectory | test/find-config-file.test.ts:12 | with start directory `pkg`, the walk misses there and finds the file in the working directory, in both versions |
| Scenarios.StopDirectoryBoundsTheWalk | test/index.test.ts:31-37 | starting in `pkg/client` and stopping at `pkg`, a file above `pkg` is not found. The split version reports 5081 naming `pkg/client`, and the older one returns undefined |
| Scenarios.AbsolutePathAgainstOtherStartDirectory | test/index.test.ts:26-28 | an absolute path into the working directory with start directory `pkg` is rejected with a message expecting the working directory and receiving `pkg` below it; the older version throws the same message |
| Scenarios.MissingStartDirectory | test/index.test.ts:43-47 | a required start directory that does not exist is reported (6148) or thrown, naming the resolved directory |

## Left out

- The file system is given as sets and a map fixed for one call. `fs.existsSync`,
  `ts.sys.fileExists` and `ts.sys.readFile` are I/O. The model also does not equate
  spellings a real file system would equate, such as `//tsconfig.json` and `/tsconfig.json`.
- `ts.parseConfigFileTextToJson` and `ts.parseJsonConfigFileContent` are uninterpreted. The
  model leaves out `extends` merging, include-glob expansion, option validation, the "No
  inputs were found" diagnostic and the order of `fileNames`, because these are TypeScript's
  own logic.
- The `ts.sys` argument to `parseJsonConfigFileContent` and its `undefined` existing-options
  argument are not passed to the collaborator. The model passes only the parsed value, the
  directory and the file path.
- Node's `path` semantics are reduced to segment lists:
  - Windows drive letters and UNC roots are not modelled.
  - Both `/` and `\` count as separators on every platform, as on Windows.
- The `SourceFile` that TypeScript attaches to a diagnostic's `file` is not modelled. The
  factory sets that field to `undefined` in every case.
- ConfigResolve.UnreadableFileIsReported: the diagnostic's `file` is unset, because
  src/create-diagnostic.ts:14 drops it. The path is kept on the message handed to the
  factory, not on the diagnostic the test at test/resolve-ts-config.test.ts:38 inspects.
- The difference between `-0` and `0` is not modelled. Both are `NO_CODE`, since `===`
  treats them as equal.
- Exceptions thrown by the collaborators, or by `ts.sys.readFile`, inside the older
  version's `try` are not modelled. The collaborators are total functions here, and only
  the option errors of `normalizeOptions` are thrown.
- The positional `findConfigFile(filePath, options)` called by test/index.test.ts and
  test/find-config-file.test.ts matches neither source file. The scenarios use the options
  record.
- The walk stays the source's tail recursion. No loop version is given.

## Findings

| source | as written | input that shows it | evidently intended | confidence | as-written member | corrected member |
|---|---|---|---|---|---|---|
| src/create-diagnostic.ts:3-11 | the factory reads the text from `message.message`, the field its parameter type declares | any record built in src/find-config-file.ts:39-42, :51-54 or :100-103, or in src/resolve-ts-config.ts:39, e.g. `{ code: 5081, messageText: "Cannot find ..." }`: it has no `message` field, so the diagnostic's text is `undefined` | the caller's `messageText` becomes the diagnostic's text, as in src/index.ts:100-109, whose callers pass `message`, and as test/resolve-ts-config.test.ts:27-29 expects | high (a type mismatch on every call); not executed | Diagnostics.CreateDiagnosticAsWritten, Diagnostics.AsWrittenLosesText | Diagnostics.CreateDiagnostic |
