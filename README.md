# tsconfig locators, modelled in Dafny

This project models the two configuration-file locators of the `tsconfig`
package. Both walk up the directory tree.

- `src/tsconfig.ts` finds the nearest `tsconfig.json` (`find`). It resolves
  an explicitly named file or directory (`resolve`) and loads the chosen file
  (`load`). Its `parse` reads an empty or blank document as `{}`.
- The legacy `dist/lib/index.js` finds the nearest `tsproj.yml` (`getProjectsSync`).

The filesystem is an immutable map from path to entry: a regular file or FIFO
with its text, or a directory. A path missing from the map does not exist, and
a failed `stat` is "no stats". Paths are absolute POSIX paths given as segment
sequences. `dirname` drops the last segment, and the root is the only path that
is its own dirname. `path.join(dir, name)` splits `name` at `/`. It then applies
the segments to `dir`: empty and `.` segments are dropped, and `..` goes to the
dirname.

Modules:

- `Wrappers` (wrappers.dfy): `Option` (for `undefined`) and `Result` (for a thrown error or a rejected promise).
- `Paths` (paths.dfy): `Dirname`, `Split` and its inverse `JoinSegments`, `Join`.
- `Fs` (fs.dfy): the filesystem map and `stat`, `isFile`, `isDirectory`, `readFile`.
- `TsConfig` (tsconfig.dfy): `Find`, `Resolve`, `Parse`, `ReadConfig`, `Load`.
  Each async/sync pair of the source (`find`/`findSync`, `resolve`/`resolveSync`,
  `load`/`loadSync`, `readFile`/`readFileSync`) makes the same decisions in the same
  order, so one function models both.
- `ProjectLocator` (projectlocator.dfy): `GetProjectsSync` is a method with the
  source's `while` loop and its `break`. It is proved against the specification
  function `Ascent`, which gives the loop's outcome: a project file found, a
  missing directory reached, or divergence at the root.

The code and the older tests in `src/tsconfig.spec.ts` disagree, and the model
follows the code:

- The tests expect a 'No config file found' error and sanitised `files` lists.
  The code returns `{config: {}}` when nothing is found, and it sanitises nothing.
- The tests expect a parse failure to read 'Unable to parse configuration file: …'.
  The code passes parse-json's own error through unchanged.

## Model

| member | source | states |
|---|---|---|
| Paths.Dirname | dist/lib/index.js:19 | `path.dirname` gives an ancestor-or-self (a prefix) of its argument, and a normal path's dirname is normal |
| Paths.DirnameFixedOrShorter | src/tsconfig.ts:89-93 | `dirname` is the identity exactly at the root; everywhere else it gives the prefix one segment shorter |
| Paths.Split | src/tsconfig.ts:23 | cutting a name at `/` gives at least one segment, no segment holds `/`, and writing the segments back with `/` gives the name |
| Paths.SplitJoinSegments | src/tsconfig.ts:23 | round trip the other way: splitting the written-out segments gives back the segments |
| Paths.Walk | src/tsconfig.ts:23 | normalising separator-free segments onto a normal directory gives a normal path |
| Paths.Join | src/tsconfig.ts:23 | `path.join` of a normal directory with any name is a normal path |
| Paths.JoinName | src/tsconfig.ts:32 | joining a plain name appends exactly that one segment |
| Paths.JoinParent | src/tsconfig.ts:23 | joining `..` goes to the dirname, so the root stays the root |
| Fs.IsFile | src/tsconfig.ts:219-221 | a path is file-like only when it has stats (a failed stat is never a file) |
| Fs.IsDirectory | src/tsconfig.ts:226-228 | a path is a directory only when it has stats, and a directory is never file-like |
| Fs.StatClassifies | src/tsconfig.ts:219-228 | every path is file-like, a directory, or missing; `isFile` and `isDirectory` never both hold, and neither holds for a missing path |
| Fs.ReadFile | src/tsconfig.ts:155-178 | reading succeeds exactly for file-like entries and gives their text |
| TsConfig.ConfigFilenameIsName | src/tsconfig.ts:13 | `tsconfig.json` is a plain path segment |
| TsConfig.ConfigInside | src/tsconfig.ts:81 | `path.resolve`/`path.join` of a directory with `tsconfig.json` appends that segment |
| TsConfig.Find | src/tsconfig.ts:80-117 | a found path is `<a>/tsconfig.json` for the nearest ancestor-or-self `a` where that entry is file-like, and none between `dir` and `a` has one; absent exactly when no directory from `dir` up to and including the root has one |
| TsConfig.FindNearest | src/tsconfig.ts:83-95 | nearest wins: if `a` holds a file-like `tsconfig.json` and no deeper directory does, `find` returns exactly `a/tsconfig.json` |
| TsConfig.FindReturnsFile | src/tsconfig.ts:83-87 | whatever `find` returns is a file or FIFO in the filesystem |
| TsConfig.ResolveError.Message | src/tsconfig.ts:40 | the two error texts, word for word, each ending with the name the caller gave |
| TsConfig.IsFalsy | src/tsconfig.ts:19 | the names that `!filename` rejects are exactly `undefined` and the empty string |
| TsConfig.Resolve | src/tsconfig.ts:18-75 | every path returned is file-like; absent only when no name was given; every failure carries the caller's name and happens only when a name was given |
| TsConfig.ResolveWithoutName | src/tsconfig.ts:19-21 | an `undefined` or empty name resolves exactly as `find(cwd)` |
| TsConfig.ResolveNamesFile | src/tsconfig.ts:23-29 | a name joining to a file or FIFO resolves to exactly that joined path |
| TsConfig.ResolveNamesDirectory | src/tsconfig.ts:31-41 | a name joining to a directory resolves to `join(fullPath, 'tsconfig.json')` when that is file-like, and otherwise fails with "Cannot find a tsconfig.json file at the specified directory: <name>" |
| TsConfig.ResolveNamesNothing | src/tsconfig.ts:44 | a name joining to a missing path fails with "The specified path does not exist: <name>" |
| TsConfig.StripBom | src/tsconfig.ts:184 | one leading U+FEFF is removed and nothing else changes; a text without one is unchanged |
| TsConfig.IsJsWhitespace | src/tsconfig.ts:187 | the JSON whitespace characters and U+FEFF belong to `\s`; `{`, `/` and `"` do not |
| TsConfig.IsBlank | src/tsconfig.ts:186-187 | the empty text matches `/^\s*$/` |
| TsConfig.BlankConcat | src/tsconfig.ts:187 | a text matches `/^\s*$/` exactly when both of its parts do |
| TsConfig.BlankIgnoresBom | src/tsconfig.ts:184-187 | removing the byte-order mark never changes whether the text matches `/^\s*$/` |
| TsConfig.Parse | src/tsconfig.ts:183-192 | a text that is blank after BOM and comment stripping is `{}`; any other stripped text is handed to parse-json under the file name, its document or its message passed on unchanged; a parse failure carries the file name |
| TsConfig.ParseEmptyDocuments | src/tsconfig.ts:186-189 | `""`, `"   "` and a lone byte-order mark parse to `{}` when comment stripping keeps blank text blank |
| TsConfig.ReadConfig | src/tsconfig.ts:155-178 | reading a file-like entry is `parse` of its text under its own name, with parse errors passed on; anything else is a read failure |
| TsConfig.Load | src/tsconfig.ts:122-150 | it fails with a resolution error exactly when `resolve` fails, and then with `resolve`'s own error unchanged; an absent resolution gives `{config: {}}` without a path; the path is always the resolved one; it never fails to read |
| TsConfig.LoadParsesFoundFile | src/tsconfig.ts:147-149 | when a file was resolved, the result is that path with `parse` of its contents, or that parse's error |
| TsConfig.LoadBlankFile | src/tsconfig.ts:138-150 | a resolved file that is blank after stripping loads as `{}` with its path |
| TsConfig.LoadNothingFound | src/tsconfig.ts:125-128 | with no name and no `tsconfig.json` up to the root, the result is `{config: {}}` without a path |
| ProjectLocator.Normalize | dist/lib/index.js:24 | `getProjectsSync` never returns the `''` of `getProjectsForFileSync`: a project file not found becomes `.` |
| ProjectLocator.StartDir | dist/lib/index.js:10 | the start directory is an ancestor-or-self of the given path, and normal when that path is |
| ProjectLocator.StartDirIsDirectory | dist/lib/index.js:10-13 | in a well-formed filesystem the start directory of an existing path is an existing directory, so the loop's first `existsSync(dir)` holds |
| ProjectLocator.Ascent | dist/lib/index.js:12-21 | the loop finds `<a>/tsproj.yml` for the nearest ancestor-or-self `a` that has one, every deeper directory existing without one; or it ends at the nearest missing directory; or it diverges exactly when every directory up to the root exists without one |
| ProjectLocator.GetProjectsSync | dist/lib/index.js:6-27 | a missing start path fails with `Invalid Path` before any ascent; otherwise the project file path is the normalised outcome of `Ascent` from the start directory and `projects` is empty; the loop runs at most depth + 1 bodies |
| ProjectLocator.GetProjectsForFileSync | dist/lib/index.js:30-35 | always the empty project file path and no projects |
| ProjectLocator.AncestorsExist | dist/lib/index.js:13 | in a well-formed filesystem every ancestor of an existing path exists |
| ProjectLocator.WellFormedAscent | dist/lib/index.js:10-21 | in a well-formed filesystem the loop never ends on a missing directory, and it ends exactly when some ancestor-or-self of the start directory holds `tsproj.yml` |
| ProjectLocator.DivergingAscentNeverStops | dist/lib/index.js:13-20 | when the ascent diverges, after any number of bodies the directory still exists without `tsproj.yml`, so the loop neither exits nor breaks |
| ProjectLocator.BareRootDiverges | dist/lib/index.js:13-20 | an existing root without `tsproj.yml` and a file `/a.ts` make the loop diverge |
| ProjectLocator.AscentToRoot | dist/lib/index.js:13-21 | the corrected ascent, which stops at the root or at a missing directory: a found project file is the nearest one, and none is found only when no ancestor-or-self holds `tsproj.yml` with every deeper directory existing without one |
| ProjectLocator.AscentToRootWellFormed | dist/lib/index.js:13-21 | in a well-formed filesystem the corrected ascent from an existing directory finds nothing exactly when no ancestor-or-self holds `tsproj.yml` |
| ProjectLocator.AscentToRootAgrees | dist/lib/index.js:13-24 | wherever the loop as written ends, the corrected ascent gives the same project file; where it diverges, the corrected one gives none |

## Findings

| source | as written | input that shows it | evidently intended | confidence | as-written member | corrected member |
|---|---|---|---|---|---|---|
| dist/lib/index.js:13-20 | `while (fs.existsSync(dir))` replaces `dir` by `path.dirname(dir)` and has no root check | an existing `/` without `/tsproj.yml`, and `getProjectsSync('/a.ts')` for an existing file `/a.ts` | stop once `dir` is its own dirname, as `find` does, and return `path.normalize('')` | high; not executed | ProjectLocator.BareRootDiverges | ProjectLocator.AscentToRoot |

`GetProjectsSync` models the loop as written. Its precondition therefore
excludes the start paths from which the loop never ends;
`DivergingAscentNeverStops` shows that nothing else can happen from those paths.

## Left out

- Real filesystem calls (`fs.stat`, `fs.statSync`, `fs.readFile`, `fs.readFileSync`, `fs.existsSync`, `fs.lstatSync`): the filesystem is a map given as a parameter. Symbolic links are not modelled, so `lstat` and `stat` agree. Read errors other than "not a file" and races between a stat and a read are not modelled.
- Promise and callback plumbing (`any-promise`, `.then` chains): async ordering is not modelled. Each async/sync pair is one function, so `find`/`findSync` and `resolve`/`resolveSync` return the same result by construction, and no separate lemma states it.
- `strip-json-comments` and `parse-json` are foreign libraries. They are the function-valued fields of `TsConfig.Foreign`, with no behaviour assumed. So the empty-document lemmas need the assumption that stripping comments keeps blank text blank. JSON syntax and parse-json's message texts are not modelled. `strip-bom` is modelled: it drops one leading U+FEFF.
- AscentToRoot: its "none found" contract holds for every filesystem only in the weaker form quoted in its row. Like the source's `existsSync(dir)` guard, a missing directory stops it before an existing `tsproj.yml` further up. AscentToRootWellFormed states the full "no ancestor has one" form for well-formed filesystems.
- Non-normalised start paths: `find`, `resolve`, `load` and `getProjectsSync` get a precondition that their start path is normal (no empty, `.` or `..` segment). The source checks the resolved, normalised `<dir>/tsconfig.json` but ascends by the textual `path.dirname`. So for `find('/a/b/..')` it checks `/a/tsconfig.json` and then moves to `/a/b`, which is not nearest-wins. The model does not capture this. Empty segments, as in the `//` of the locator's test path `pathToTestProjects + '/dual/src/foo.ts'`, do no such harm: on them the source walks the same directories as on the normalised path.
- Entries other than files, FIFOs and directories (sockets, character and block devices) cannot be represented. For such an existing path `resolve` throws "The specified path does not exist", and `getProjectsSync` treats it as existing.
- Node's `path` module: only absolute POSIX paths are modelled. These are not: relative start directories (whose ascent would stop at `.`), Windows path forms, and the trailing separator that `path.join` keeps.
- Paths.Join: a name with a trailing `/` joins to the same path as without it. Node keeps the trailing separator, and `stat` on such a path fails for a file.
- The `projects` elements of `TypeScriptProjectFileDetails`: the interface declaring them is not part of this model. `ProjectSpec` stands for them, and the locator never produces one.
- `createRootProjectSync` (dist/lib/index.js:38-40) returns `undefined` and does nothing, so there is nothing to state.
- src/lib/index.ts holds constant-returning stubs of the same three functions; the compiled dist/lib/index.js is the version modelled.
- Glob expansion, `extends` merging, default compiler options and the sanitising of `files`/`exclude`: the code modelled here contains none of this logic.
