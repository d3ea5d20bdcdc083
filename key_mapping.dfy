/**
 * Object keys derived from local paths (`relKey` of index.js) and the path
 * arithmetic behind them. A path is a string; `sep` is the platform's path
 * separator ('/' on POSIX, '\\' on Windows), which `path.join` and
 * `path.relative` use between components.
 */
module KeyMapping {

  /** `path` names something strictly inside directory `root`: `root`, one separator, then at least one character. */
  predicate IsUnder(root: string, path: string, sep: char)
  {
    |path| > |root| + 1 && path[..|root|] == root && path[|root|] == sep
  }

  /** `path.relative(root, path)` for a path the traversal produced under `root`. */
  function Relative(root: string, path: string, sep: char): (rel: string)
    requires IsUnder(root, path, sep)
    ensures root + [sep] + rel == path
    ensures |rel| > 0
  {
    path[|root| + 1..]
  }

  /** `path.join(dir, name)` for a resolved directory and a plain directory-entry name. */
  function Join(dir: string, name: string, sep: char): (path: string)
    requires name != ""
    ensures IsUnder(dir, path, sep)
    ensures Relative(dir, path, sep) == name
  {
    dir + [sep] + name
  }

  /** A path under a directory that is itself under `root` is under `root`. */
  lemma UnderTransitive(root: string, dir: string, path: string, sep: char)
    requires IsUnder(root, dir, sep) && IsUnder(dir, path, sep)
    ensures IsUnder(root, path, sep)
  {
  }

  /** `s.replaceAll("\\", "/")`. */
  function ToSlashes(s: string): (r: string)
    ensures |r| == |s|
    ensures forall k :: 0 <= k < |s| ==> r[k] == (if s[k] == '\\' then '/' else s[k])
    ensures '\\' !in r
  {
    if s == [] then [] else [if s[0] == '\\' then '/' else s[0]] + ToSlashes(s[1..])
  }

  /**
   * `relKey(fullPath)`: `prefix` verbatim, then the path of `fullPath`
   * relative to the resolved upload root with every backslash turned into a
   * forward slash.
   */
  function RelKey(prefix: string, root: string, sep: char, fullPath: string): (key: string)
    requires IsUnder(root, fullPath, sep)
    ensures |key| == |prefix| + |fullPath| - |root| - 1
    ensures key[..|prefix|] == prefix
    ensures '\\' !in key[|prefix|..]
    ensures forall k :: |prefix| <= k < |key| ==>
      var c := fullPath[k - |prefix| + |root| + 1];
      key[k] == if c == '\\' then '/' else c
  {
    prefix + ToSlashes(Relative(root, fullPath, sep))
  }

  /** Where the relative path holds no backslash the key is the prefix followed by that path, verbatim. */
  lemma RelKeyWithoutBackslash(prefix: string, root: string, sep: char, fullPath: string)
    requires IsUnder(root, fullPath, sep) && '\\' !in Relative(root, fullPath, sep)
    ensures RelKey(prefix, root, sep, fullPath) == prefix + Relative(root, fullPath, sep)
  {
  }

  /** A file in a sub-directory of `root` has the directory, the separator and its name as relative path. */
  lemma RelativeNested(root: string, sep: char, dir: string, name: string)
    requires dir != "" && name != ""
    ensures IsUnder(root, Join(Join(root, dir, sep), name, sep), sep)
    ensures Relative(root, Join(Join(root, dir, sep), name, sep), sep) == dir + [sep] + name
  {
  }

  /** Either separator between two backslash-free names becomes a slash. */
  lemma ToSlashesJoin(sep: char, dir: string, name: string)
    requires sep == '/' || sep == '\\'
    requires '\\' !in dir && '\\' !in name
    ensures ToSlashes(dir + [sep] + name) == dir + "/" + name
  {
  }

  /**
   * A file `name` in sub-directory `dir` of the root gets the key
   * `prefix + dir + "/" + name` on either platform, when neither name holds
   * a backslash.
   */
  lemma RelKeyNested(prefix: string, root: string, sep: char, dir: string, name: string)
    requires sep == '/' || sep == '\\'
    requires dir != "" && name != "" && '\\' !in dir && '\\' !in name
    ensures IsUnder(root, Join(Join(root, dir, sep), name, sep), sep)
    ensures RelKey(prefix, root, sep, Join(Join(root, dir, sep), name, sep)) == prefix + (dir + "/" + name)
  {
    RelativeNested(root, sep, dir, name);
    ToSlashesJoin(sep, dir, name);
  }

  /**
   * Two files under the same root get the same key only if they are the same
   * file, provided backslash and slash are not both in use in their relative
   * paths: true on Windows (no '/' in a name) and on POSIX for names without '\\'.
   */
  lemma RelKeyInjective(prefix: string, root: string, sep: char, p: string, q: string)
    requires IsUnder(root, p, sep) && IsUnder(root, q, sep)
    requires var rp, rq := Relative(root, p, sep), Relative(root, q, sep);
      ('\\' !in rp && '\\' !in rq) || ('/' !in rp && '/' !in rq)
    requires RelKey(prefix, root, sep, p) == RelKey(prefix, root, sep, q)
    ensures p == q
  {
  }

  /**
   * On POSIX a file may be named `a\b`; it then receives the same key as the
   * file `b` in directory `a`.
   */
  lemma RelKeyCollision()
    ensures var root, p, q := "/srv/dist", "/srv/dist/a\\b", "/srv/dist/a/b";
      IsUnder(root, p, '/') && IsUnder(root, q, '/') && p != q &&
      RelKey("jay-test/", root, '/', p) == RelKey("jay-test/", root, '/', q) == "jay-test/a/b"
  {
  }
}
