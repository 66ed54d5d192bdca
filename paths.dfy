/**
 * POSIX paths as sequences of segments below the filesystem root, and the
 * three operations of Node's `path` module that the locators rely on:
 * `dirname`, and `join`/`resolve` of a directory with a relative name.
 */
module Paths {

  /** An absolute path: `[]` is `/`, `["a", "b"]` is `/a/b`. */
  type Path = seq<string>

  const Separator: char := '/'

  /** A segment that path normalisation keeps as it is. */
  predicate IsName(s: string) {
    s != "" && s != "." && s != ".." && Separator !in s
  }

  /** A path every segment of which is a plain name (what `path.normalize` produces). */
  predicate IsNormal(p: Path) {
    forall i :: 0 <= i < |p| ==> IsName(p[i])
  }

  /** `path.dirname`: the last segment is dropped; the root is its own dirname. */
  function Dirname(p: Path): (r: Path)
    ensures r <= p
    ensures IsNormal(p) ==> IsNormal(r)
  {
    if p == [] then p else p[..|p| - 1]
  }

  /** The only fixed point of `Dirname` is the root; everywhere else it shortens the path by one. */
  lemma DirnameFixedOrShorter(p: Path)
    ensures Dirname(p) == p || |Dirname(p)| < |p|
    ensures Dirname(p) == p <==> p == []
    ensures p != [] ==> |Dirname(p)| == |p| - 1 && Dirname(p) <= p
  {
  }

  /** The inverse of `Split`: the segments written out with a separator between each two. */
  function JoinSegments(segs: seq<string>): string
    decreases |segs|
  {
    if segs == [] then ""
    else if |segs| == 1 then segs[0]
    else segs[0] + [Separator] + JoinSegments(segs[1..])
  }

  /** The text of `s` cut at every separator (`"a//b"` gives `["a", "", "b"]`). */
  function Split(s: string): (r: seq<string>)
    ensures |r| > 0
    ensures forall i :: 0 <= i < |r| ==> Separator !in r[i]
    ensures JoinSegments(r) == s
  {
    if s == [] then [""]
    else
      var rest := Split(s[1..]);
      if s[0] == Separator then
        assert JoinSegments([""] + rest) == [Separator] + JoinSegments(rest) by {
          if |rest| == 1 { assert rest == [rest[0]]; }
          else { assert ([""] + rest)[1..] == rest; }
        }
        [""] + rest
      else
        var r := [[s[0]] + rest[0]] + rest[1..];
        assert JoinSegments(r) == [s[0]] + JoinSegments(rest) by {
          if |rest| > 1 { assert r[1..] == rest[1..]; }
        }
        assert s == [s[0]] + s[1..];
        r
  }

  /** Splitting what `JoinSegments` wrote gives back the segments it was given. */
  lemma {:induction false} SplitJoinSegments(segs: seq<string>)
    requires |segs| > 0
    requires forall i :: 0 <= i < |segs| ==> Separator !in segs[i]
    ensures Split(JoinSegments(segs)) == segs
    decreases |JoinSegments(segs)|
  {
    var h := segs[0];
    if h == [] {
      if |segs| > 1 {
        SplitJoinSegments(segs[1..]);
        assert JoinSegments(segs) == [Separator] + JoinSegments(segs[1..]);
        assert ([Separator] + JoinSegments(segs[1..]))[1..] == JoinSegments(segs[1..]);
        assert segs == [""] + segs[1..];
      }
    } else {
      assert h[0] != Separator by { assert h[0] in h; }
      var segs' := [h[1..]] + segs[1..];
      assert forall i :: 0 <= i < |segs'| ==> Separator !in segs'[i] by {
        forall i | 0 <= i < |segs'| ensures Separator !in segs'[i] {
          if i > 0 {
            assert segs'[i] == segs[i];
          }
        }
      }
      SplitJoinSegments(segs');
      var text := JoinSegments(segs);
      assert text == [h[0]] + JoinSegments(segs') by {
        if |segs| > 1 {
          assert segs'[1..] == segs[1..];
          assert h == [h[0]] + h[1..];
        } else {
          assert h == [h[0]] + h[1..];
        }
      }
      assert text[0] == h[0] && text[1..] == JoinSegments(segs');
      assert [[h[0]] + h[1..]] + segs'[1..] == segs by {
        assert [h[0]] + h[1..] == h;
        assert segs'[1..] == segs[1..];
      }
    }
  }

  /** One segment of a relative name applied to a directory, as `path.normalize` does it. */
  function Step(dir: Path, seg: string): Path {
    if seg == "" || seg == "." then dir
    else if seg == ".." then Dirname(dir)
    else dir + [seg]
  }

  /** The segments of a relative name applied to a directory from left to right. */
  function Walk(dir: Path, segs: seq<string>): (r: Path)
    ensures (IsNormal(dir) && forall i :: 0 <= i < |segs| ==> Separator !in segs[i]) ==> IsNormal(r)
    decreases |segs|
  {
    if segs == [] then dir
    else
      assert forall i :: 1 <= i < |segs| ==> segs[1..][i - 1] == segs[i];
      Walk(Step(dir, segs[0]), segs[1..])
  }

  /**
   * `path.join(dir, name)`: the name's segments normalised onto `dir`. For a
   * plain relative name such as `tsconfig.json`, `path.resolve(dir, name)`
   * gives the same path; for an absolute name or a trailing separator the two differ.
   */
  function Join(dir: Path, name: string): (r: Path)
    ensures IsNormal(dir) ==> IsNormal(r)
  {
    Walk(dir, Split(name))
  }

  /** Joining a plain name appends exactly that segment. */
  lemma JoinName(dir: Path, name: string)
    requires IsName(name)
    ensures Join(dir, name) == dir + [name]
  {
    assert Split(name) == [name] by {
      SplitJoinSegments([name]);
    }
    assert Walk(dir, [name]) == Walk(dir + [name], []);
  }

  /** Joining `..` goes to the parent directory, and the root stays the root. */
  lemma JoinParent(dir: Path)
    ensures Join(dir, "..") == Dirname(dir)
  {
    assert Split("..") == [".."] by {
      SplitJoinSegments([".."]);
    }
    assert Walk(dir, [".."]) == Walk(Dirname(dir), []);
  }
}
