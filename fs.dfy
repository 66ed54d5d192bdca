/**
 * The filesystem as an immutable map from path to entry, and the probes
 * `stat`, `isFile` and `isDirectory` of src/tsconfig.ts built on it.
 */
module Fs {
  import opened Wrappers
  import opened Paths

  /** What `stat` reports for an existing path; FIFO contents are what a reader would get. */
  datatype Entry = RegularFile(contents: string) | Fifo(contents: string) | Directory

  /** A path missing from the map does not exist. */
  type FileSystem = map<Path, Entry>

  /** `stat` / `statSync`: a stat that fails yields no stats at all (`undefined`). */
  function Stat(fs: FileSystem, p: Path): Option<Entry> {
    if p in fs then Some(fs[p]) else None
  }

  /** `isFile`: the stats exist and describe a regular file or a FIFO. */
  predicate IsFile(stats: Option<Entry>)
    ensures IsFile(stats) ==> stats.Some?
  {
    stats.Some? && (stats.value.RegularFile? || stats.value.Fifo?)
  }

  /** `isDirectory`: the stats exist and describe a directory. */
  predicate IsDirectory(stats: Option<Entry>)
    ensures IsDirectory(stats) ==> stats.Some? && !IsFile(stats)
  {
    stats.Some? && stats.value.Directory?
  }

  /** Every path is exactly one of: file-like, a directory, or missing. */
  lemma StatClassifies(fs: FileSystem, p: Path)
    ensures IsFile(Stat(fs, p)) || IsDirectory(Stat(fs, p)) || p !in fs
    ensures !(IsFile(Stat(fs, p)) && IsDirectory(Stat(fs, p)))
    ensures p !in fs ==> !IsFile(Stat(fs, p)) && !IsDirectory(Stat(fs, p))
  {
  }

  /** `fs.readFile(p, 'utf8')`: the text of a file-like entry; reading anything else fails. */
  function ReadFile(fs: FileSystem, p: Path): (r: Option<string>)
    ensures r.Some? <==> IsFile(Stat(fs, p))
    ensures r.Some? ==> r.value == fs[p].contents
  {
    if p in fs && !fs[p].Directory? then Some(fs[p].contents) else None
  }
}
