/**
 * The two parts of a path that the importer asks PHP's `pathinfo` for:
 * the base name (PATHINFO_BASENAME) and the extension (PATHINFO_EXTENSION).
 */
module Paths {

  /** The base name of `path`: what follows its last slash, or all of it when it has none. */
  function BaseName(path: string): string
  {
    if path == [] || path[|path| - 1] == '/' then ""
    else BaseName(path[..|path| - 1]) + [path[|path| - 1]]
  }

  /**
   * The extension of `path`: what follows the last dot of its base name, or the
   * empty string when the base name has no dot.
   */
  function Extension(path: string): string
  {
    ExtensionScan(path, "")
  }

  /**
   * Scans `path` backwards, `after` holding what has been passed over: it stops with
   * `after` at a dot, and with nothing at a slash or at the start.
   */
  function ExtensionScan(path: string, after: string): string
  {
    if path == [] then ""
    else if path[|path| - 1] == '/' then ""
    else if path[|path| - 1] == '.' then after
    else ExtensionScan(path[..|path| - 1], [path[|path| - 1]] + after)
  }

  /** `name` ends with a dot followed by `e`. */
  predicate IsDotSuffix(name: string, e: string)
  {
    |e| < |name| && name[|name| - |e| - 1] == '.' && name[|name| - |e|..] == e
  }

  /**
   * The base name is the longest suffix of the path without a slash: what is cut off
   * is empty or ends with a slash.
   */
  lemma {:induction false} BaseNameIsLastSegment(path: string)
    ensures var b := BaseName(path);
      && '/' !in b
      && |b| <= |path| && path[|path| - |b|..] == b
      && (|b| < |path| ==> path[|path| - |b| - 1] == '/')
  {
    BaseNameIsSuffix(path);
    BaseNameFollowsSlash(path);
  }

  lemma {:induction false} BaseNameIsSuffix(path: string)
    ensures var b := BaseName(path);
      '/' !in b && |b| <= |path| && path[|path| - |b|..] == b
    decreases |path|
  {
    if path != [] && path[|path| - 1] != '/' {
      var n := |path| - 1;
      BaseNameIsSuffix(path[..n]);
      var b := BaseName(path[..n]);
      assert path[|path| - |b| - 1..] == path[..n][n - |b|..] + [path[n]];
    }
  }

  lemma {:induction false} BaseNameFollowsSlash(path: string)
    ensures var b := BaseName(path);
      |b| < |path| ==> path[|path| - |b| - 1] == '/'
    decreases |path|
  {
    if path != [] && path[|path| - 1] != '/' {
      var n := |path| - 1;
      BaseNameFollowsSlash(path[..n]);
      var b := BaseName(path[..n]);
      if |b| < n {
        assert path[n - |b| - 1] == path[..n][n - |b| - 1];
      }
    }
  }

  /** Text without a slash appended to a path extends its base name. */
  lemma {:induction false} BaseNameAppend(path: string, s: string)
    requires '/' !in s
    ensures BaseName(path + s) == BaseName(path) + s
    decreases |s|
  {
    if s == [] {
      assert path + s == path;
    } else {
      var n := |s| - 1;
      assert (path + s)[..|path + s| - 1] == path + s[..n];
      BaseNameAppend(path, s[..n]);
      assert s == s[..n] + [s[n]];
    }
  }

  /**
   * The extension holds no dot and no slash; when it is not empty the base name ends
   * with a dot and the extension; when it is empty the base name has no dot or ends with one.
   */
  lemma ExtensionIsLastDotSuffix(path: string)
    ensures var e := Extension(path);
      && '.' !in e && '/' !in e
      && (e != [] ==> IsDotSuffix(BaseName(path), e))
      && (e == [] ==> '.' !in BaseName(path) || IsDotSuffix(BaseName(path), e))
  {
    assert path + "" == path;
    ExtensionScanIsLastDotSuffix(path, "");
  }

  lemma {:induction false} ExtensionScanIsLastDotSuffix(path: string, after: string)
    requires '.' !in after && '/' !in after
    ensures var e := ExtensionScan(path, after);
      var b := BaseName(path + after);
      && '.' !in e && '/' !in e
      && (e != [] ==> IsDotSuffix(b, e))
      && (e == [] ==> '.' !in b || IsDotSuffix(b, e))
    decreases |path|
  {
    BaseNameAppend(path, after);
    if path != [] {
      var n := |path| - 1;
      var c := path[n];
      if c == '.' {
        var b := BaseName(path + after);
        assert b == BaseName(path[..n]) + [c] + after;
        assert b[|b| - |after| - 1] == c;
        assert b[|b| - |after|..] == after;
      } else if c != '/' {
        assert path[..n] + ([c] + after) == path + after;
        ExtensionScanIsLastDotSuffix(path[..n], [c] + after);
      }
    }
  }

  /** `dir/name`, the path the importer builds for a file moved into a directory. */
  function Join(dir: string, name: string): string
  {
    dir + "/" + name
  }

  /** A file moved into a directory keeps its base name. */
  lemma JoinKeepsBaseName(dir: string, name: string)
    requires '/' !in name
    ensures BaseName(Join(dir, name)) == name
  {
    BaseNameAppend(dir + "/", name);
  }
}
