/**
 * The common-root computation a solution folder uses to guess its base
 * directory from two child directories. Paths are taken as already
 * normalised (`Path.GetFullPath` is file-system dependent and not modelled).
 */
module PathRoots {
  import opened Common

  /** `Path.DirectorySeparatorChar` on a Unix host. */
  const DirectorySeparator: char := '/'

  /** A path with one separator appended, as the scan sees it. */
  function WithSeparator(p: string): (r: string)
    ensures |r| == |p| + 1 && r[..|p|] == p && r[|p|] == DirectorySeparator
  {
    p + [DirectorySeparator]
  }

  /**
   * Position `k` is a directory boundary both paths share: once each path has
   * a separator appended, their first `k + 1` characters agree and the
   * character at `k` is a separator.
   */
  ghost predicate CommonSeparatorAt(path1: string, path2: string, k: int) {
    && 0 <= k <= |path1|
    && k <= |path2|
    && WithSeparator(path1)[..k + 1] == WithSeparator(path2)[..k + 1]
    && WithSeparator(path1)[k] == DirectorySeparator
  }

  /** Scanning one more equal character: the prefixes still agree, and a shared boundary is a separator there. */
  lemma ScanStep(path1: string, path2: string, n: nat)
    requires n < |path1| + 1 && n < |path2| + 1
    requires WithSeparator(path1)[..n] == WithSeparator(path2)[..n]
    requires WithSeparator(path1)[n] == WithSeparator(path2)[n]
    ensures WithSeparator(path1)[..n + 1] == WithSeparator(path2)[..n + 1]
    ensures CommonSeparatorAt(path1, path2, n) <==> WithSeparator(path1)[n] == DirectorySeparator
  {
    var p1, p2 := WithSeparator(path1), WithSeparator(path2);
    assert p1[..n + 1] == p1[..n] + [p1[n]] && p2[..n + 1] == p2[..n] + [p2[n]];
  }

  /** Where the scan stops, no shared boundary lies at or beyond that position. */
  lemma ScanEnd(path1: string, path2: string, n: nat)
    requires n <= |path1| + 1 && n <= |path2| + 1
    requires n == |path1| + 1 || n == |path2| + 1 || WithSeparator(path1)[n] != WithSeparator(path2)[n]
    ensures forall j :: n <= j ==> !CommonSeparatorAt(path1, path2, j)
  {
    forall j | n <= j ensures !CommonSeparatorAt(path1, path2, j) {
      var p1, p2 := WithSeparator(path1), WithSeparator(path2);
      if n <= |path1| && n <= |path2| && j <= |path1| && j <= |path2| {
        assert p1[..j + 1][n] == p1[n] && p2[..j + 1][n] == p2[n];
      }
    }
  }

  /** A shared boundary at `k` gives the common prefix of length `k`. */
  lemma BoundaryPrefix(path1: string, path2: string, k: nat)
    requires CommonSeparatorAt(path1, path2, k)
    ensures WithSeparator(path1)[..k] == path1[..k] == path2[..k]
  {
    var p1, p2 := WithSeparator(path1), WithSeparator(path2);
    assert p1[..k + 1][..k] == p1[..k] == path1[..k];
    assert p2[..k + 1][..k] == p2[..k] == path2[..k];
  }

  /**
   * `GetCommonPathRoot (path1, path2)`: equal paths are their own root;
   * otherwise the longest common prefix that ends at a shared directory
   * boundary, or `null` when that boundary is at position 0 or absent.
   */
  method GetCommonPathRoot(path1: string, path2: string) returns (r: Option<string>)
    ensures path1 == path2 ==> r == Some(path1)
    ensures path1 != path2 && r.Some? ==>
      && 0 < |r.value| <= |path1|
      && |r.value| <= |path2|
      && r.value == path1[..|r.value|]
      && r.value == path2[..|r.value|]
      && CommonSeparatorAt(path1, path2, |r.value|)
      && forall j :: CommonSeparatorAt(path1, path2, j) ==> j <= |r.value|
    ensures path1 != path2 && r.None? ==> forall j :: CommonSeparatorAt(path1, path2, j) ==> j <= 0
  {
    if path1 == path2 {
      return Some(path1);
    }
    var p1 := WithSeparator(path1);
    var p2 := WithSeparator(path2);
    var lastCommonSep := -1;
    var n := 0;
    while n < |p1| && n < |p2|
      invariant 0 <= n <= |p1| && n <= |p2|
      invariant p1[..n] == p2[..n]
      invariant -1 <= lastCommonSep < n
      invariant lastCommonSep >= 0 ==> CommonSeparatorAt(path1, path2, lastCommonSep)
      invariant forall j :: lastCommonSep < j < n ==> !CommonSeparatorAt(path1, path2, j)
    {
      if p1[n] != p2[n] {
        break;
      }
      ScanStep(path1, path2, n);
      if p1[n] == DirectorySeparator {
        lastCommonSep := n;
      }
      n := n + 1;
    }
    ScanEnd(path1, path2, n);
    if lastCommonSep > 0 {
      r := Some(p1[..lastCommonSep]);
      BoundaryPrefix(path1, path2, lastCommonSep);
    } else {
      r := None;
    }
  }
}
