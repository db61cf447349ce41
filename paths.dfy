/**
 * Slash-separated path handling used to name downloaded files: Go's
 * `path.Base` (applied to URLs) and `filepath.Join` (applied to the
 * target directory and the local name).
 */
module Paths {

  /** `p` with every trailing '/' removed. */
  function TrimTrailingSlashes(p: string): (r: string)
    ensures |r| <= |p| && r == p[..|r|]
    ensures r == [] || r[|r| - 1] != '/'
    ensures forall i :: |r| <= i < |p| ==> p[i] == '/'
    decreases |p|
  {
    if p != [] && p[|p| - 1] == '/' then TrimTrailingSlashes(p[..|p| - 1]) else p
  }

  /** The part of `p` after its last '/', or all of `p` when it has none. */
  function AfterLastSlash(p: string): (r: string)
    ensures |r| <= |p| && r == p[|p| - |r|..]
    ensures '/' !in r
    ensures |r| < |p| ==> p[|p| - |r| - 1] == '/'
    decreases |p|
  {
    if p == [] || p[|p| - 1] == '/' then [] else AfterLastSlash(p[..|p| - 1]) + [p[|p| - 1]]
  }

  /** True when `p` is made of '/' characters only. */
  predicate AllSlashes(p: string)
  {
    forall i :: 0 <= i < |p| ==> p[i] == '/'
  }

  /**
   * Go's `path.Base`: "." for the empty path, "/" for a path of slashes
   * only, and otherwise the last element after trailing slashes are dropped.
   */
  function Base(p: string): (r: string)
    ensures r != []
    ensures p == [] ==> r == "."
    ensures r == "/" <==> p != [] && AllSlashes(p)
    ensures '/' in r ==> r == "/"
  {
    if p == [] then "."
    else
      var trimmed := TrimTrailingSlashes(p);
      var last := AfterLastSlash(trimmed);
      if last == [] then "/" else last
  }

  /** Go's `filepath.Join` for a directory and a single file name. */
  function Join(dir: string, name: string): string
  {
    if dir == [] then name else dir + "/" + name
  }

  lemma {:induction false} AfterLastSlashOfSegment(head: string, seg: string)
    requires '/' !in seg
    ensures AfterLastSlash(head + "/" + seg) == seg
    ensures AfterLastSlash(seg) == seg
    decreases |seg|
  {
    if seg != [] {
      var init := seg[..|seg| - 1];
      assert (head + "/" + seg)[..|head + "/" + seg| - 1] == head + "/" + init;
      assert seg == init + [seg[|seg| - 1]];
      AfterLastSlashOfSegment(head, init);
    } else {
      assert head + "/" + seg == head + "/";
    }
  }

  /** The base of `dir/name` is `name` whenever `name` is one path element. */
  lemma {:induction false} BaseOfJoin(dir: string, name: string)
    requires name != [] && '/' !in name
    ensures Base(Join(dir, name)) == name
  {
    var p := Join(dir, name);
    assert p[|p| - 1] == name[|name| - 1];
    assert TrimTrailingSlashes(p) == p;
    AfterLastSlashOfSegment(dir, name);
  }

  /** A trailing slash does not change the base of a non-empty path. */
  lemma {:induction false} BaseIgnoresTrailingSlash(p: string)
    requires p != []
    ensures Base(p + "/") == Base(p)
  {
    assert (p + "/")[..|p + "/"| - 1] == p;
    assert TrimTrailingSlashes(p + "/") == TrimTrailingSlashes(p);
  }

  /** Join puts exactly one slash between a non-empty directory and the name, and adds nothing else. */
  lemma JoinShape(dir: string, name: string)
    ensures dir == [] ==> Join(dir, name) == name
    ensures dir != [] ==>
      && |Join(dir, name)| == |dir| + 1 + |name|
      && Join(dir, name)[..|dir| + 1] == dir + "/"
      && Join(dir, name)[|dir| + 1..] == name
  {
    if dir != [] {
      assert (dir + "/" + name)[..|dir| + 1] == dir + "/";
      assert (dir + "/" + name)[|dir| + 1..] == name;
    }
  }
}
