/**
 * The legacy project-file locator of dist/lib/index.js: from a source file or
 * directory, walk up the directory tree to the nearest `tsproj.yml`.
 */
module ProjectLocator {
  import opened Wrappers
  import opened Paths
  import opened Fs

  const PROJECT_FILENAME: string := "tsproj.yml"
  const INVALID_PATH: string := "Invalid Path"

  /** A path as returned to callers: `''`, `'.'` (what `path.normalize('')` gives), or an absolute path. */
  datatype PathString = EmptyString | CurrentDir | Absolute(path: Path)

  /**
   * `path.normalize(projectFile)`, where `None` stands for the initial `''`;
   * an absolute path built from segments is already normal.
   */
  function Normalize(projectFile: Option<Path>): (r: PathString)
    ensures r != EmptyString
  {
    match projectFile
    case None => CurrentDir
    case Some(p) => Absolute(p)
  }

  /** A parsed project specification; the locator never produces one. */
  type ProjectSpec = string

  /** `TypeScriptProjectFileDetails` */
  datatype ProjectFileDetails = ProjectFileDetails(projectFilePath: PathString, projects: seq<ProjectSpec>)

  /** A thrown `Error` with its message. */
  datatype Error = Error(message: string)

  /** The directory the ascent starts from: the path itself when it is a directory, else its dirname. */
  function StartDir(fs: FileSystem, pathOrSrcFile: Path): (dir: Path)
    ensures dir <= pathOrSrcFile
    ensures IsNormal(pathOrSrcFile) ==> IsNormal(dir)
  {
    if IsDirectory(Stat(fs, pathOrSrcFile)) then pathOrSrcFile else Dirname(pathOrSrcFile)
  }

  /** The loop goes on past `dir`: it exists and holds no `tsproj.yml`. */
  predicate Continues(fs: FileSystem, dir: Path) {
    dir in fs && dir + [PROJECT_FILENAME] !in fs
  }

  /** `dir[..k]` is the nearest ancestor-or-self of `dir` from which the loop breaks with a project file. */
  predicate NearestProjectDir(fs: FileSystem, dir: Path, k: int) {
    && 0 <= k <= |dir|
    && dir[..k] in fs && dir[..k] + [PROJECT_FILENAME] in fs
    && forall j :: k < j <= |dir| ==> Continues(fs, dir[..j])
  }

  /** `dir[..k]` is the nearest ancestor-or-self of `dir` that is missing, every deeper one continuing. */
  predicate NearestMissingDir(fs: FileSystem, dir: Path, k: int) {
    && 0 <= k <= |dir|
    && dir[..k] !in fs
    && forall j :: k < j <= |dir| ==> Continues(fs, dir[..j])
  }

  /** How the `while` loop started at a directory ends, or that it never does. */
  datatype Outcome = Found(projectFile: Path) | Vanished | Diverges

  /**
   * The loop of `getProjectsSync` from `dir`: it stops when `dir` is missing,
   * breaks when `dir/tsproj.yml` exists, and otherwise moves to the dirname;
   * at the root the dirname is the root again, so from there it never ends.
   */
  function Ascent(fs: FileSystem, dir: Path): (o: Outcome)
    requires IsNormal(dir)
    ensures o.Found? <==> exists k :: NearestProjectDir(fs, dir, k)
    ensures o.Found? ==> exists k :: NearestProjectDir(fs, dir, k) && o.projectFile == dir[..k] + [PROJECT_FILENAME]
    ensures o.Vanished? <==> exists k :: NearestMissingDir(fs, dir, k)
    ensures o.Diverges? <==> forall k :: 0 <= k <= |dir| ==> Continues(fs, dir[..k])
    decreases |dir|
  {
    assert dir[..|dir|] == dir;
    if dir !in fs then
      assert NearestMissingDir(fs, dir, |dir|);
      assert forall k :: NearestProjectDir(fs, dir, k) ==> k == |dir|;
      Vanished
    else if dir + [PROJECT_FILENAME] in fs then
      assert NearestProjectDir(fs, dir, |dir|);
      assert forall k :: NearestMissingDir(fs, dir, k) ==> k == |dir|;
      Found(dir + [PROJECT_FILENAME])
    else if Dirname(dir) == dir then
      assert forall k :: 0 <= k <= |dir| ==> dir[..k] == dir;
      Diverges
    else
      var parent := Dirname(dir);
      assert parent == dir[..|dir| - 1];
      assert forall k :: 0 <= k <= |parent| ==> parent[..k] == dir[..k];
      assert forall k :: NearestProjectDir(fs, dir, k) <==> NearestProjectDir(fs, parent, k);
      assert forall k :: NearestMissingDir(fs, dir, k) <==> NearestMissingDir(fs, parent, k);
      Ascent(fs, parent)
  }

  /** What `projectFile` holds when the loop ends with `o`. */
  function ProjectFile(o: Outcome): Option<Path>
    requires !o.Diverges?
  {
    if o.Found? then Some(o.projectFile) else None
  }

  /**
   * `getProjectsSync`: a missing start path raises `Invalid Path`; otherwise the
   * ascent from `StartDir` runs until it finds a `tsproj.yml` or reaches a
   * missing directory. The loop has no root check, so callers must start
   * where it ends; `iterations` counts the bodies it runs.
   */
  method GetProjectsSync(fs: FileSystem, pathOrSrcFile: Path)
    returns (r: Result<ProjectFileDetails, Error>, ghost iterations: nat)
    requires IsNormal(pathOrSrcFile)
    requires pathOrSrcFile in fs ==> !Ascent(fs, StartDir(fs, pathOrSrcFile)).Diverges?
    ensures pathOrSrcFile !in fs ==> r == Failure(Error(INVALID_PATH)) && iterations == 0
    ensures pathOrSrcFile in fs ==>
      r == Success(ProjectFileDetails(Normalize(ProjectFile(Ascent(fs, StartDir(fs, pathOrSrcFile)))), []))
    ensures iterations <= |StartDir(fs, pathOrSrcFile)| + 1
  {
    iterations := 0;
    if pathOrSrcFile !in fs {
      return Failure(Error(INVALID_PATH)), iterations;
    }

    var dir := StartDir(fs, pathOrSrcFile);
    ghost var start := dir;
    ghost var outcome := Ascent(fs, start);

    var projectFile: Option<Path> := None;
    while dir in fs
      invariant dir <= start
      invariant IsNormal(dir)
      invariant iterations + |dir| == |start|
      invariant Ascent(fs, dir) == outcome
      invariant projectFile == None
      decreases |dir|
    {
      iterations := iterations + 1;
      var potentialProjectFile := dir + [PROJECT_FILENAME];
      if potentialProjectFile in fs {
        projectFile := Some(potentialProjectFile);
        break;
      } else {
        dir := Dirname(dir);
      }
    }
    assert projectFile == ProjectFile(outcome);

    r := Success(ProjectFileDetails(Normalize(projectFile), []));
  }

  /** `getProjectsForFileSync`: always the empty path and no projects. */
  function GetProjectsForFileSync(path: Path): (r: ProjectFileDetails)
    ensures r.projectFilePath == EmptyString && r.projects == []
  {
    ProjectFileDetails(EmptyString, [])
  }

  /** A filesystem in which an existing root is a directory and the parent of every other existing path is an existing directory. */
  predicate WellFormed(fs: FileSystem) {
    forall p :: p in fs ==>
      if p == [] then fs[p].Directory? else Dirname(p) in fs && fs[Dirname(p)].Directory?
  }

  /** In a well-formed filesystem the start directory of an existing path is an existing directory, so the loop's first test holds. */
  lemma StartDirIsDirectory(fs: FileSystem, pathOrSrcFile: Path)
    requires WellFormed(fs) && pathOrSrcFile in fs
    ensures StartDir(fs, pathOrSrcFile) in fs && fs[StartDir(fs, pathOrSrcFile)].Directory?
  {
  }

  /** In a well-formed filesystem every ancestor of an existing path exists. */
  lemma {:induction false} AncestorsExist(fs: FileSystem, d: Path)
    requires WellFormed(fs) && d in fs
    ensures forall k :: 0 <= k <= |d| ==> d[..k] in fs
    decreases |d|
  {
    assert d[..|d|] == d;
    if d != [] {
      var parent := Dirname(d);
      AncestorsExist(fs, parent);
      assert forall k :: 0 <= k < |d| ==> parent[..k] == d[..k];
    }
  }

  /**
   * In a well-formed filesystem the loop never ends on a missing directory, so
   * `getProjectsSync` returns exactly when some ancestor-or-self of the start
   * directory holds `tsproj.yml`, and otherwise spins at the root.
   */
  lemma WellFormedAscent(fs: FileSystem, pathOrSrcFile: Path)
    requires WellFormed(fs) && pathOrSrcFile in fs && IsNormal(pathOrSrcFile)
    ensures var d := StartDir(fs, pathOrSrcFile);
            && !Ascent(fs, d).Vanished?
            && (!Ascent(fs, d).Diverges? <==> exists k :: 0 <= k <= |d| && d[..k] + [PROJECT_FILENAME] in fs)
  {
    var d := StartDir(fs, pathOrSrcFile);
    StartDirIsDirectory(fs, pathOrSrcFile);
    AncestorsExist(fs, d);
  }

  /** The dirname applied `n` times: where the loop is after `n` bodies that did not break. */
  function Ascend(dir: Path, n: nat): (r: Path)
    ensures r <= dir
    ensures IsNormal(dir) ==> IsNormal(r)
  {
    if n == 0 then dir else Ascend(Dirname(dir), n - 1)
  }

  /**
   * When the ascent diverges, the loop is still running after any number of
   * bodies: the directory exists and holds no `tsproj.yml`.
   */
  lemma {:induction false} DivergingAscentNeverStops(fs: FileSystem, dir: Path, n: nat)
    requires IsNormal(dir) && Ascent(fs, dir).Diverges?
    ensures Continues(fs, Ascend(dir, n))
    decreases n
  {
    assert dir[..|dir|] == dir;
    if n > 0 {
      if dir == [] {
        assert Ascend(dir, n) == Ascend(dir, n - 1);
        DivergingAscentNeverStops(fs, dir, n - 1);
      } else {
        DivergingAscentNeverStops(fs, Dirname(dir), n - 1);
      }
    }
  }

  /** An existing root without `tsproj.yml`, and a source file directly in it: the loop never ends. */
  lemma BareRootDiverges()
    ensures var fs := map[[] := Directory, ["a.ts"] := RegularFile("")];
            ["a.ts"] in fs && IsNormal(["a.ts"]) && Ascent(fs, StartDir(fs, ["a.ts"])) == Diverges
  {
    assert IsName("a.ts");
    var fs := map[[] := Directory, ["a.ts"] := RegularFile("")];
    var candidate := [] + [PROJECT_FILENAME];
    assert candidate != [];
    assert candidate[0][0] != ["a.ts"][0][0];
    assert fs.Keys == {[], ["a.ts"]};
    assert candidate !in fs;
  }

  // ---------------------------------------------------------------------
  // The ascent as evidently intended: stop at the root, as `find` in
  // src/tsconfig.ts does.
  // ---------------------------------------------------------------------

  /** The loop with a root check: `None` (the `''` project file) when the root is passed without a find. */
  function AscentToRoot(fs: FileSystem, dir: Path): (r: Option<Path>)
    requires IsNormal(dir)
    ensures r.Some? ==> exists k :: NearestProjectDir(fs, dir, k) && r.value == dir[..k] + [PROJECT_FILENAME]
    ensures r.None? ==> forall k :: NearestProjectDir(fs, dir, k) ==> false
    decreases |dir|
  {
    assert dir[..|dir|] == dir;
    if dir !in fs then
      assert forall k :: NearestProjectDir(fs, dir, k) ==> k == |dir|;
      None
    else if dir + [PROJECT_FILENAME] in fs then
      assert NearestProjectDir(fs, dir, |dir|);
      Some(dir + [PROJECT_FILENAME])
    else if Dirname(dir) == dir then
      assert forall k :: 0 <= k <= |dir| ==> dir[..k] == dir;
      None
    else
      var parent := Dirname(dir);
      assert parent == dir[..|dir| - 1];
      assert forall k :: 0 <= k <= |parent| ==> parent[..k] == dir[..k];
      assert forall k :: NearestProjectDir(fs, dir, k) <==> NearestProjectDir(fs, parent, k);
      AscentToRoot(fs, parent)
  }

  /** Wherever the loop as written ends, the corrected ascent ends with the same project file. */
  lemma AscentToRootAgrees(fs: FileSystem, dir: Path)
    requires IsNormal(dir)
    ensures !Ascent(fs, dir).Diverges? ==> AscentToRoot(fs, dir) == ProjectFile(Ascent(fs, dir))
    ensures Ascent(fs, dir).Diverges? ==> AscentToRoot(fs, dir) == None
  {
    var o := Ascent(fs, dir);
    var r := AscentToRoot(fs, dir);
    if o.Found? {
      var k :| NearestProjectDir(fs, dir, k) && o.projectFile == dir[..k] + [PROJECT_FILENAME];
      var k' :| NearestProjectDir(fs, dir, k') && r.value == dir[..k'] + [PROJECT_FILENAME];
      assert k == k';
    }
  }

  /**
   * In a well-formed filesystem the corrected ascent from an existing
   * directory finds nothing exactly when no ancestor-or-self holds `tsproj.yml`.
   */
  lemma AscentToRootWellFormed(fs: FileSystem, dir: Path)
    requires WellFormed(fs) && dir in fs && IsNormal(dir)
    ensures AscentToRoot(fs, dir).None? <==> forall k :: 0 <= k <= |dir| ==> dir[..k] + [PROJECT_FILENAME] !in fs
  {
    AncestorsExist(fs, dir);
    AscentToRootAgrees(fs, dir);
  }
}
