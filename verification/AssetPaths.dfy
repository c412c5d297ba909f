/** URL paths of static assets: how the scan joins names, and why joining loses nothing. */
module AssetPaths {
  /** A directory entry's name as the file system allows it; `sep` is the platform's separator. */
  predicate LegalName(sep: char, name: string) {
    name != "" && name != "." && name != ".." && '/' !in name && sep !in name
  }

  /** path.join on an already joined relative path and one more name. */
  function JoinPath(sep: char, base: string, name: string): string {
    if base == "" then name else base + [sep] + name
  }

  /** The path the scan has built after descending through `path`. */
  function UrlPath(sep: char, path: seq<string>): string {
    if path == [] then "" else JoinPath(sep, UrlPath(sep, path[..|path| - 1]), path[|path| - 1])
  }

  /** replace(/\\/g, '/') */
  function ToSlashes(s: string): (r: string)
    ensures |r| == |s|
    ensures forall i | 0 <= i < |s| :: r[i] == if s[i] == '\\' then '/' else s[i]
  {
    seq(|s|, i requires 0 <= i < |s| => if s[i] == '\\' then '/' else s[i])
  }

  function CacheKey(urlPath: string): string { "/" + ToSlashes(urlPath) }

  /** The URL a reader expects for a list of path segments: each behind a slash. */
  function Route(path: seq<string>): string {
    if path == [] then "" else Route(path[..|path| - 1]) + "/" + path[|path| - 1]
  }

  predicate Plain(path: seq<string>) {
    forall i | 0 <= i < |path| :: path[i] != "" && '/' !in path[i] && '\\' !in path[i]
  }

  lemma ToSlashesOfConcat(a: string, b: string)
    ensures ToSlashes(a + b) == ToSlashes(a) + ToSlashes(b)
  {
  }

  lemma ToSlashesKeeps(s: string)
    requires '\\' !in s
    ensures ToSlashes(s) == s
  {
  }

  /** On both platforms the cache key of a path is its route. */
  lemma {:induction false} KeyIsRoute(sep: char, path: seq<string>)
    requires sep == '/' || sep == '\\'
    requires path != [] && Plain(path)
    ensures CacheKey(UrlPath(sep, path)) == Route(path)
  {
    var init, last := path[..|path| - 1], path[|path| - 1];
    ToSlashesKeeps(last);
    if init == [] {
      assert Route(init) == "";
    } else {
      KeyIsRoute(sep, init);
      UrlPathNonEmpty(sep, init);
      ToSlashesOfConcat(UrlPath(sep, init) + [sep], last);
      ToSlashesOfConcat(UrlPath(sep, init), [sep]);
      assert ToSlashes([sep]) == "/";
      assert CacheKey(UrlPath(sep, path)) == "/" + (ToSlashes(UrlPath(sep, init)) + "/" + last);
    }
  }

  lemma {:induction false} UrlPathNonEmpty(sep: char, path: seq<string>)
    requires path != [] && forall i | 0 <= i < |path| :: path[i] != ""
    ensures UrlPath(sep, path) != ""
  {
    assert path[|path| - 1] != "";
  }

  /** A string splits in only one way at its last slash. */
  lemma LastSlashIsUnique(a: string, x: string, b: string, y: string)
    requires '/' !in x && '/' !in y
    requires a + "/" + x == b + "/" + y
    ensures a == b && x == y
  {
    var s := a + "/" + x;
    assert s[|a|] == '/' && s[|b|] == '/';
    assert forall i | |a| < i < |s| :: s[i] == x[i - |a| - 1];
    assert forall i | |b| < i < |s| :: s[i] == y[i - |b| - 1];
    assert a == s[..|a|] && b == s[..|b|];
    assert x == s[|a| + 1..] && y == s[|b| + 1..];
  }

  /** Different paths have different routes. */
  lemma {:induction false} RouteInjective(p: seq<string>, q: seq<string>)
    requires forall i | 0 <= i < |p| :: '/' !in p[i]
    requires forall i | 0 <= i < |q| :: '/' !in q[i]
    requires Route(p) == Route(q)
    ensures p == q
  {
    if p != [] && q != [] {
      var p0, q0 := p[..|p| - 1], q[..|q| - 1];
      LastSlashIsUnique(Route(p0), p[|p| - 1], Route(q0), q[|q| - 1]);
      RouteInjective(p0, q0);
      assert p == p0 + [p[|p| - 1]] && q == q0 + [q[|q| - 1]];
    }
  }

  /** A path with a backslash in some name has one in its route, and cache keys never do. */
  lemma {:induction false} RouteKeepsBackslash(path: seq<string>, i: nat)
    requires i < |path| && '\\' in path[i]
    ensures '\\' in Route(path)
  {
    if i < |path| - 1 {
      RouteKeepsBackslash(path[..|path| - 1], i);
    }
  }

  lemma KeysHaveNoBackslash(urlPath: string)
    ensures '\\' !in CacheKey(urlPath)
  {
  }
}
