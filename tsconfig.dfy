/**
 * The `tsconfig.json` locator and loader of src/tsconfig.ts. Every
 * asynchronous function there has a synchronous twin with the same
 * decisions (`find`/`findSync`, `resolve`/`resolveSync`, `load`/`loadSync`);
 * each pair is one function here, over the filesystem given as a value.
 */
module TsConfig {
  import opened Wrappers
  import opened Paths
  import opened Fs

  const CONFIG_FILENAME: string := "tsconfig.json"

  /** The canonical file name is a plain segment, so joining it appends one segment. */
  lemma ConfigFilenameIsName()
    ensures IsName(CONFIG_FILENAME)
  {
  }

  /** `path.join(dir, 'tsconfig.json')` and `path.resolve(dir, 'tsconfig.json')` append the one segment. */
  lemma ConfigInside(dir: Path)
    ensures Join(dir, CONFIG_FILENAME) == dir + [CONFIG_FILENAME]
  {
    ConfigFilenameIsName();
    JoinName(dir, CONFIG_FILENAME);
  }

  // ---------------------------------------------------------------------
  // find / findSync
  // ---------------------------------------------------------------------

  /** `dir` holds a file-like `tsconfig.json`. */
  predicate HasConfig(fs: FileSystem, dir: Path) {
    IsFile(Stat(fs, dir + [CONFIG_FILENAME]))
  }

  /** `dir[..k]` is the nearest ancestor-or-self of `dir` holding a file-like `tsconfig.json`. */
  predicate NearestConfigDir(fs: FileSystem, dir: Path, k: int) {
    && 0 <= k <= |dir|
    && HasConfig(fs, dir[..k])
    && forall j :: k < j <= |dir| ==> !HasConfig(fs, dir[..j])
  }

  /**
   * `find` / `findSync`: look at `<dir>/tsconfig.json`, then at the parent's,
   * until the directory is its own dirname; the root is checked before stopping.
   */
  function Find(fs: FileSystem, dir: Path): (r: Option<Path>)
    requires IsNormal(dir)
    ensures r.Some? ==> exists k :: NearestConfigDir(fs, dir, k) && r.value == dir[..k] + [CONFIG_FILENAME]
    ensures r.None? <==> forall k :: 0 <= k <= |dir| ==> !HasConfig(fs, dir[..k])
    decreases |dir|
  {
    // `path.resolve(dir, CONFIG_FILENAME)`, which is this path by `ConfigInside`
    var configFile := dir + [CONFIG_FILENAME];
    if IsFile(Stat(fs, configFile)) then
      assert dir[..|dir|] == dir;
      assert NearestConfigDir(fs, dir, |dir|);
      Some(configFile)
    else
      var parentDir := Dirname(dir);
      if dir == parentDir then
        assert forall k :: 0 <= k <= |dir| ==> dir[..k] == dir;
        None
      else
        var r := Find(fs, parentDir);
        assert parentDir == dir[..|dir| - 1];
        assert forall k :: 0 <= k <= |parentDir| ==> parentDir[..k] == dir[..k];
        assert dir[..|dir|] == dir;
        if r.Some? then
          var k :| NearestConfigDir(fs, parentDir, k) && r.value == parentDir[..k] + [CONFIG_FILENAME];
          assert NearestConfigDir(fs, dir, k);
          r
        else
          r
  }

  /** The nearest configuration wins: `Find` names `tsconfig.json` in the deepest ancestor that has one. */
  lemma FindNearest(fs: FileSystem, dir: Path, k: nat)
    requires IsNormal(dir)
    requires k <= |dir| && HasConfig(fs, dir[..k])
    requires forall j :: k < j <= |dir| ==> !HasConfig(fs, dir[..j])
    ensures Find(fs, dir) == Some(dir[..k] + [CONFIG_FILENAME])
  {
    var r := Find(fs, dir);
    var k' :| NearestConfigDir(fs, dir, k') && r.value == dir[..k'] + [CONFIG_FILENAME];
    assert k' == k;
  }

  /** Whatever `Find` returns is a file-like entry of the filesystem. */
  lemma FindReturnsFile(fs: FileSystem, dir: Path)
    requires IsNormal(dir)
    ensures Find(fs, dir).Some? ==> IsFile(Stat(fs, Find(fs, dir).value))
  {
  }

  // ---------------------------------------------------------------------
  // resolve / resolveSync
  // ---------------------------------------------------------------------

  /** The two `TypeError`s that `resolve` raises, each with the name the caller gave. */
  datatype ResolveError =
    | NoConfigInDirectory(filename: string)
    | PathDoesNotExist(filename: string)
  {
    /** The error's message, word for word. */
    function Message(): (m: string)
      ensures |m| > |filename| && m[|m| - |filename|..] == filename
    {
      match this
      case NoConfigInDirectory(f) => "Cannot find a " + CONFIG_FILENAME + " file at the specified directory: " + f
      case PathDoesNotExist(f) => "The specified path does not exist: " + f
    }
  }

  /** `!filename`: the name is `undefined` or the empty string. */
  predicate IsFalsy(filename: Option<string>)
    ensures IsFalsy(filename) <==> filename == None || filename == Some("")
  {
    filename.None? || filename.value == ""
  }

  /**
   * `resolve` / `resolveSync`: without a name fall back to `Find`; otherwise
   * the joined path is returned when file-like, its `tsconfig.json` when it is
   * a directory holding one, and an error in every other case.
   */
  function Resolve(fs: FileSystem, cwd: Path, filename: Option<string>): (r: Result<Option<Path>, ResolveError>)
    requires IsNormal(cwd)
    ensures r.Success? && r.value.Some? ==> IsFile(Stat(fs, r.value.value))
    ensures r.Success? && r.value.None? ==> IsFalsy(filename)
    ensures r.Failure? ==> !IsFalsy(filename) && r.error.filename == filename.value
  {
    if IsFalsy(filename) then
      Success(Find(fs, cwd))
    else
      var fullPath := Join(cwd, filename.value);
      var stats := Stat(fs, fullPath);
      if IsFile(stats) then
        Success(Some(fullPath))
      else if IsDirectory(stats) then
        // `path.join(fullPath, CONFIG_FILENAME)`, which is this path by `ConfigInside`
        var configFile := fullPath + [CONFIG_FILENAME];
        if IsFile(Stat(fs, configFile)) then
          Success(Some(configFile))
        else
          Failure(NoConfigInDirectory(filename.value))
      else
        Failure(PathDoesNotExist(filename.value))
  }

  /** With no usable name, resolving is the ascent from `cwd`. */
  lemma ResolveWithoutName(fs: FileSystem, cwd: Path, filename: Option<string>)
    requires IsNormal(cwd)
    requires IsFalsy(filename)
    ensures Resolve(fs, cwd, filename) == Success(Find(fs, cwd))
  {
  }

  /** A name that joins to a file or FIFO resolves to exactly that joined path. */
  lemma ResolveNamesFile(fs: FileSystem, cwd: Path, name: string)
    requires IsNormal(cwd)
    requires name != "" && IsFile(Stat(fs, Join(cwd, name)))
    ensures Resolve(fs, cwd, Some(name)) == Success(Some(Join(cwd, name)))
  {
  }

  /**
   * A name that joins to a directory resolves to that directory's
   * `tsconfig.json` if it is file-like, and otherwise fails naming the directory.
   */
  lemma ResolveNamesDirectory(fs: FileSystem, cwd: Path, name: string)
    requires IsNormal(cwd)
    requires name != "" && IsDirectory(Stat(fs, Join(cwd, name)))
    ensures var inside := Join(Join(cwd, name), CONFIG_FILENAME);
            Resolve(fs, cwd, Some(name)) ==
              if IsFile(Stat(fs, inside)) then Success(Some(inside))
              else Failure(NoConfigInDirectory(name))
  {
    ConfigInside(Join(cwd, name));
  }

  /** A name that joins to nothing on disk fails with "does not exist". */
  lemma ResolveNamesNothing(fs: FileSystem, cwd: Path, name: string)
    requires IsNormal(cwd)
    requires name != "" && Join(cwd, name) !in fs
    ensures Resolve(fs, cwd, Some(name)) == Failure(PathDoesNotExist(name))
    ensures Resolve(fs, cwd, Some(name)).error.Message() == "The specified path does not exist: " + name
  {
  }

  // ---------------------------------------------------------------------
  // parse
  // ---------------------------------------------------------------------

  /** A JSON document. */
  datatype Json =
    | JNull
    | JBool(b: bool)
    | JNumber(literal: string)
    | JString(s: string)
    | JArray(items: seq<Json>)
    | JObject(members: seq<(string, Json)>)

  /** `{}` */
  const EmptyObject: Json := JObject([])

  /**
   * The two foreign text functions `parse` calls: `strip-json-comments`, and
   * `parse-json`, which either yields a document or the message of its `JSONError`.
   */
  datatype Foreign = Foreign(
    stripComments: string -> string,
    parseJson: (string, Path) -> Result<Json, string>)

  /** A document that could not be parsed, with the file name `parse-json` attaches to it. */
  datatype ParseError = ParseError(fileName: Path, message: string)

  const BOM: char := '\U{FEFF}'

  /** `strip-bom`: one leading byte-order mark is removed. */
  function StripBom(s: string): (r: string)
    ensures |s| > 0 && s[0] == BOM ==> s == [BOM] + r
    ensures !(|s| > 0 && s[0] == BOM) ==> r == s
  {
    if |s| > 0 && s[0] == BOM then s[1..] else s
  }

  /** A character matched by `\s` in a JavaScript regular expression. */
  predicate IsJsWhitespace(c: char)
    ensures c == ' ' || c == '\t' || c == '\n' || c == '\r' ==> IsJsWhitespace(c)
    ensures c == BOM ==> IsJsWhitespace(c)
    ensures c == '{' || c == '/' || c == '"' ==> !IsJsWhitespace(c)
  {
    || c == '\t' || c == '\n' || c == '\U{000B}' || c == '\U{000C}' || c == '\r' || c == ' '
    || c == '\U{00A0}' || c == '\U{1680}' || ('\U{2000}' <= c <= '\U{200A}')
    || c == '\U{2028}' || c == '\U{2029}' || c == '\U{202F}' || c == '\U{205F}'
    || c == '\U{3000}' || c == BOM
  }

  /** `/^\s*$/.test(s)`: the text is empty or whitespace only. */
  predicate IsBlank(s: string)
    ensures s == "" ==> IsBlank(s)
  {
    forall i :: 0 <= i < |s| ==> IsJsWhitespace(s[i])
  }

  /** A text is blank exactly when both of its parts are. */
  lemma BlankConcat(a: string, b: string)
    ensures IsBlank(a + b) <==> IsBlank(a) && IsBlank(b)
  {
    assert forall i :: 0 <= i < |a| ==> (a + b)[i] == a[i];
    assert forall i :: 0 <= i < |b| ==> (a + b)[|a| + i] == b[i];
  }

  /** The byte-order mark is itself `\s`, so removing it never changes whether a text is blank. */
  lemma BlankIgnoresBom(s: string)
    ensures IsBlank(StripBom(s)) <==> IsBlank(s)
  {
    if |s| > 0 && s[0] == BOM {
      assert forall i :: 1 <= i < |s| ==> s[i] == s[1..][i - 1];
    }
  }

  /**
   * `parse`: comments and the byte-order mark are stripped; a text that is then
   * blank is the empty object, and anything else is handed to `parse-json`.
   */
  function Parse(lib: Foreign, contents: string, filename: Path): (r: Result<Json, ParseError>)
    ensures IsBlank(lib.stripComments(StripBom(contents))) ==> r == Success(EmptyObject)
    ensures var data := lib.stripComments(StripBom(contents));
            !IsBlank(data) ==>
              r == match lib.parseJson(data, filename)
                   case Success(json) => Success(json)
                   case Failure(message) => Failure(ParseError(filename, message))
    ensures r.Failure? ==> r.error.fileName == filename
  {
    var data := lib.stripComments(StripBom(contents));
    if IsBlank(data) then
      Success(EmptyObject)
    else
      match lib.parseJson(data, filename)
      case Success(json) => Success(json)
      case Failure(message) => Failure(ParseError(filename, message))
  }

  /**
   * The empty text, a text of spaces, and a lone byte-order mark all parse to
   * `{}`, given that stripping comments from a blank text leaves it blank.
   */
  lemma ParseEmptyDocuments(lib: Foreign, filename: Path)
    requires IsBlank(lib.stripComments("")) && IsBlank(lib.stripComments("   "))
    ensures Parse(lib, "", filename) == Success(EmptyObject)
    ensures Parse(lib, "   ", filename) == Success(EmptyObject)
    ensures Parse(lib, [BOM], filename) == Success(EmptyObject)
  {
    assert StripBom([BOM]) == "";
  }

  // ---------------------------------------------------------------------
  // load / loadSync
  // ---------------------------------------------------------------------

  /** `LoadResult`: the parsed configuration and, when one was found, the file it came from. */
  datatype LoadResult = LoadResult(path: Option<Path>, config: Json)

  /** Why `load` rejects: resolution failed, the file could not be read, or it did not parse. */
  datatype LoadError =
    | Unresolved(resolveError: ResolveError)
    | Unreadable(path: Path)
    | Unparsable(parseError: ParseError)

  /** `readFile` / `readFileSync`: read the file and parse what it holds. */
  function ReadConfig(fs: FileSystem, lib: Foreign, filename: Path): (r: Result<Json, LoadError>)
    ensures IsFile(Stat(fs, filename)) ==>
      r == match Parse(lib, fs[filename].contents, filename)
           case Success(json) => Success(json)
           case Failure(e) => Failure(Unparsable(e))
    ensures !IsFile(Stat(fs, filename)) ==> r == Failure(Unreadable(filename))
  {
    match ReadFile(fs, filename)
    case None => Failure(Unreadable(filename))
    case Some(contents) =>
      match Parse(lib, contents, filename)
      case Success(json) => Success(json)
      case Failure(e) => Failure(Unparsable(e))
  }

  /**
   * `load` / `loadSync`: resolve, then read and parse the file found; when
   * nothing was found the result is `{config: {}}` without a path.
   */
  function Load(fs: FileSystem, lib: Foreign, cwd: Path, filename: Option<string>): (r: Result<LoadResult, LoadError>)
    requires IsNormal(cwd)
    ensures Resolve(fs, cwd, filename).Failure? <==> r.Failure? && r.error.Unresolved?
    ensures Resolve(fs, cwd, filename).Failure? ==> r == Failure(Unresolved(Resolve(fs, cwd, filename).error))
    ensures Resolve(fs, cwd, filename) == Success(None) ==> r == Success(LoadResult(None, EmptyObject))
    ensures r.Success? ==> r.value.path == Resolve(fs, cwd, filename).value
    ensures !(r.Failure? && r.error.Unreadable?)
  {
    match Resolve(fs, cwd, filename)
    case Failure(e) => Failure(Unresolved(e))
    case Success(None) => Success(LoadResult(None, EmptyObject))
    case Success(Some(path)) =>
      match ReadConfig(fs, lib, path)
      case Success(config) => Success(LoadResult(Some(path), config))
      case Failure(e) => Failure(e)
  }

  /** A configuration that was found is the parse of the found file's contents, under its own name. */
  lemma LoadParsesFoundFile(fs: FileSystem, lib: Foreign, cwd: Path, filename: Option<string>, path: Path)
    requires IsNormal(cwd)
    requires Resolve(fs, cwd, filename) == Success(Some(path))
    ensures IsFile(Stat(fs, path))
    ensures Parse(lib, fs[path].contents, path).Success? ==>
      Load(fs, lib, cwd, filename) == Success(LoadResult(Some(path), Parse(lib, fs[path].contents, path).value))
    ensures Parse(lib, fs[path].contents, path).Failure? ==>
      Load(fs, lib, cwd, filename) == Failure(Unparsable(Parse(lib, fs[path].contents, path).error))
  {
  }

  /** An empty (or blank, once comments and the mark are gone) `tsconfig.json` loads as `{}` with its path. */
  lemma LoadBlankFile(fs: FileSystem, lib: Foreign, cwd: Path, filename: Option<string>, path: Path)
    requires IsNormal(cwd)
    requires Resolve(fs, cwd, filename) == Success(Some(path))
    requires IsBlank(lib.stripComments(StripBom(fs[path].contents)))
    ensures Load(fs, lib, cwd, filename) == Success(LoadResult(Some(path), EmptyObject))
  {
  }

  /** Without a name and with no `tsconfig.json` up to the root, loading gives `{config: {}}`. */
  lemma LoadNothingFound(fs: FileSystem, lib: Foreign, cwd: Path)
    requires IsNormal(cwd)
    requires forall k :: 0 <= k <= |cwd| ==> !HasConfig(fs, cwd[..k])
    ensures Load(fs, lib, cwd, None) == Success(LoadResult(None, EmptyObject))
    ensures Load(fs, lib, cwd, Some("")) == Success(LoadResult(None, EmptyObject))
  {
  }
}
