/**
 * The path-splitting library routines file_multi.c relies on:
 * g_path_get_basename from GLib and dirname(3) as glibc implements it.
 * Only `/` separates components.
 */
module Paths {
  import opened Wrappers
  import opened CText

  /**
   * Where a run of `/` ending at `k` starts: every byte of p[r..k] is a
   * slash and the byte before `r`, if any, is not.
   */
  function TrimSlashes(p: string, k: nat): (r: nat)
    requires k <= |p|
    ensures r <= k
    ensures forall i :: r <= i < k ==> p[i] == '/'
    ensures r == 0 || p[r - 1] != '/'
    decreases k
  {
    if k > 0 && p[k - 1] == '/' then TrimSlashes(p, k - 1) else k
  }

  /**
   * Where the component ending at `e` starts: no byte of p[b..e] is a
   * slash and the byte before `b`, if any, is one.
   */
  function ComponentStart(p: string, e: nat): (b: nat)
    requires e <= |p|
    ensures b <= e
    ensures '/' !in p[b..e]
    ensures b == 0 || p[b - 1] == '/'
    decreases e
  {
    if e > 0 && p[e - 1] != '/' then ComponentStart(p, e - 1) else e
  }

  /**
   * g_path_get_basename: "." for the empty path, "/" for a path of
   * slashes only, otherwise the last component with trailing slashes
   * ignored.
   */
  function Basename(p: string): (name: string)
    ensures |p| == 0 ==> name == "."
    ensures |p| > 0 && TrimSlashes(p, |p|) == 0 ==> name == "/"
    ensures |p| > 0 && TrimSlashes(p, |p|) > 0 ==> |name| > 0 && '/' !in name
  {
    if |p| == 0 then "."
    else
      var e := TrimSlashes(p, |p|);
      if e == 0 then "/"
      else p[ComponentStart(p, e)..e]
  }

  /**
   * Where glibc's dirname cuts the path at slash `j`: before the run of
   * slashes ending there, except that a path whose first component is
   * that run keeps "/" (or "//" when the run is exactly two slashes).
   */
  function CutAt(p: string, j: nat): (d: string)
    requires j < |p| && p[j] == '/'
    ensures 0 < |d| <= j + 1 && d == p[..|d|]
  {
    var r := TrimSlashes(p, j);
    if r == 0 then (if j == 1 then p[..2] else p[..1])
    else p[..r]
  }

  /**
   * dirname(3) in glibc: "." when the path has no slash (or only one
   * inside a trailing run after a slash-free component); otherwise the
   * path up to its last separator that is not part of trailing slashes.
   */
  function Dirname(p: string): (d: string)
    ensures d == "." || (0 < |d| <= |p| && d == p[..|d|])
    ensures '/' !in p ==> d == "."
  {
    match LastIndexOf(p, '/')
    case None => "."
    case Some(i) =>
      if i != 0 && i == |p| - 1 then
        var r := TrimSlashes(p, i);
        if r == 0 then CutAt(p, i)
        else
          match LastIndexOf(p[..r], '/')
          case None => "."
          case Some(j) => CutAt(p, j)
      else CutAt(p, i)
  }

  /** The name joined to a directory with `/` is the basename of the result. */
  lemma BasenameOfJoin(dir: string, name: string)
    requires |name| > 0 && '/' !in name
    ensures Basename(dir + "/" + name) == name
  {
    var p := dir + "/" + name;
    assert p[|p| - 1] == name[|name| - 1];
    assert TrimSlashes(p, |p|) == |p|;
    var b := ComponentStart(p, |p|);
    assert p[|dir|] == '/';
    assert p[|dir| + 1..] == name;
    assert b == |dir| + 1;
  }

  /**
   * A directory that does not end in `/`, joined to a name with `/`, is
   * the dirname of the result.  (For "/" itself the join gives "//name",
   * whose dirname is "//".)
   */
  lemma DirnameOfJoin(dir: string, name: string)
    requires |dir| > 0 && dir[|dir| - 1] != '/'
    requires |name| > 0 && '/' !in name
    ensures Dirname(dir + "/" + name) == dir
  {
    var p := dir + "/" + name;
    assert p[|dir|] == '/';
    assert p[|dir| + 1..] == name;
    var i := LastIndexOf(p, '/');
    assert i == Some(|dir|);
    assert p[|dir| - 1] == dir[|dir| - 1];
    assert TrimSlashes(p, |dir|) == |dir|;
    assert p[..|dir|] == dir;
  }
}
