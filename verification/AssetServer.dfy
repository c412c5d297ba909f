/** The static asset cache of the production server: preloading it and serving from it. */
module AssetServer {
  import opened Options
  import opened AssetPaths
  import opened AssetTree
  import opened Maps

  datatype Asset = Asset(content: Bytes, contentType: string, etag: string)
  datatype Response = NotModified(etag: string) | Full(asset: Asset)

  /** The platform's separator, the MIME lookup on file names, and the content hash. */
  datatype Platform = Platform(sep: char, mime: string -> string, md5: Bytes -> string)

  function ETag(p: Platform, content: Bytes): string { "\"" + p.md5(content) + "\"" }

  function AssetOf(p: Platform, l: Leaf): Asset {
    Asset(l.data, if l.path == [] then "" else p.mime(l.path[|l.path| - 1]), ETag(p, l.data))
  }

  function Key(p: Platform, l: Leaf): string { CacheKey(UrlPath(p.sep, l.path)) }

  function Keys(p: Platform): Leaf -> string { l => Key(p, l) }
  function Assets(p: Platform): Leaf -> Asset { l => AssetOf(p, l) }

  /** A cache after storing leaves one by one. */
  function Stored(p: Platform, cache: map<string, Asset>, ls: seq<Leaf>): map<string, Asset> {
    PutAll(Keys(p), Assets(p), cache, ls)
  }

  function ListingOfDir(dir: Node, at: seq<string>): seq<Leaf> {
    if dir.Dir? && dir.readable then Listing(dir.entries, at) else []
  }

  lemma StoredNext(p: Platform, cache: map<string, Asset>, es: seq<Entry>, i: nat, at: seq<string>)
    requires i < |es|
    ensures Stored(p, cache, Listing(es[..i + 1], at)) == Stored(p, Stored(p, cache, Listing(es[..i], at)), ListingOf(es[i], at))
  {
    assert es[..i + 1][..i] == es[..i];
    PutAllConcat(Keys(p), Assets(p), cache, Listing(es[..i], at), ListingOf(es[i], at));
  }

  lemma StoredOne(p: Platform, cache: map<string, Asset>, l: Leaf)
    ensures Stored(p, cache, [l]) == cache[Key(p, l) := AssetOf(p, l)]
  {
    assert [l][..0] == [];
    assert Stored(p, cache, [l]) == PutAll(Keys(p), Assets(p), cache, [l][..0])[Keys(p)(l) := Assets(p)(l)];
  }

  class Server {
    const platform: Platform
    var assetCache: map<string, Asset>

    constructor (platform: Platform)
      ensures this.platform == platform && assetCache == map[]
    {
      this.platform := platform;
      assetCache := map[];
    }

    /** `at` names the directories that `basePath` was joined from. */
    method ScanDirectory(dir: Node, basePath: string, ghost at: seq<string>)
      requires basePath == UrlPath(platform.sep, at)
      modifies this`assetCache
      ensures assetCache == Stored(platform, old(assetCache), ListingOfDir(dir, at))
      decreases dir
    {
      if !dir.Dir? || !dir.readable {
        return;
      }
      var entries := dir.entries;
      for i := 0 to |entries|
        invariant assetCache == Stored(platform, old(assetCache), Listing(entries[..i], at))
      {
        StoredNext(platform, old(assetCache), entries, i, at);
        ScanEntry(entries[i], basePath, at);
      }
      assert entries[..|entries|] == entries;
    }

    /** The body of the scan's loop. */
    method ScanEntry(entry: Entry, basePath: string, ghost at: seq<string>)
      requires basePath == UrlPath(platform.sep, at)
      modifies this`assetCache
      ensures assetCache == Stored(platform, old(assetCache), ListingOf(entry, at))
      decreases entry
    {
      var urlPath := JoinPath(platform.sep, basePath, entry.name);
      ghost var path := at + [entry.name];
      assert path[..|path| - 1] == at;
      match entry.node {
        case Dir(_, _) =>
          ScanDirectory(entry.node, urlPath, path);
        case File(readable, content) =>
          if readable {
            StoredOne(platform, assetCache, Leaf(path, content));
            var cacheKey := "/" + ToSlashes(urlPath);
            assetCache := assetCache[cacheKey := Asset(content, platform.mime(entry.name), ETag(platform, content))];
          }
        case Special =>
      }
    }

    /** `client` is None when the client directory does not exist. */
    method PreloadStaticAssets(client: Option<Node>)
      modifies this`assetCache
      ensures assetCache ==
              Stored(platform, old(assetCache), if client.Some? then ListingOfDir(client.value, []) else [])
      ensures client.None? || !client.value.Dir? || !client.value.readable ==> assetCache == old(assetCache)
      ensures client.Some? && client.value.Dir? && client.value.readable && old(assetCache) == map[] ==>
                assetCache == Preloaded(platform, client.value.entries)
    {
      if client.Some? {
        ScanDirectory(client.value, "", []);
      }
    }

    /** None when the path is not cached; otherwise 304 exactly when the client's tag is the asset's. */
    method ServeStaticAsset(pathname: string, ifNoneMatch: Option<string>) returns (r: Option<Response>)
      ensures r.None? <==> pathname !in assetCache
      ensures r.Some? && r.value.Full? <==> pathname in assetCache && ifNoneMatch != Some(assetCache[pathname].etag)
      ensures r.Some? && r.value.Full? ==> r.value.asset == assetCache[pathname]
      ensures r.Some? && r.value.NotModified? ==> ifNoneMatch == Some(r.value.etag)
    {
      if pathname !in assetCache {
        return None;
      }
      var cached := assetCache[pathname];
      if ifNoneMatch == Some(cached.etag) {
        return Some(NotModified(cached.etag));
      }
      return Some(Full(cached));
    }
  }

  // ---------------------------------------------------------------- the cache agrees with the tree

  /** The cache that preloading a readable client directory builds. */
  function Preloaded(p: Platform, es: seq<Entry>): map<string, Asset> {
    Stored(p, map[], Listing(es, []))
  }

  predicate OnPlatform(p: Platform, es: seq<Entry>) {
    (p.sep == '/' || p.sep == '\\') && WellNamed(p.sep, es)
  }

  /** No file that the scan reads has a backslash on its path. */
  predicate NoBackslash(es: seq<Entry>) {
    forall k, i | 0 <= k < |Listing(es, [])| && 0 <= i < |Listing(es, [])[k].path| :: '\\' !in Listing(es, [])[k].path[i]
  }

  /** Path segments that a request can name. */
  predicate Segments(path: seq<string>) {
    path != [] && forall i | 0 <= i < |path| :: path[i] != "" && '/' !in path[i]
  }

  /** Looking a path up in the cache gives what walking the tree along it gives. */
  predicate Faithful(p: Platform, es: seq<Entry>, path: seq<string>) {
    var cache := Preloaded(p, es);
    && (Route(path) in cache <==> Content(es, path).Some?)
    && (Route(path) in cache ==>
          cache[Route(path)] == Asset(Content(es, path).value, if path == [] then "" else p.mime(path[|path| - 1]),
                                      "\"" + p.md5(Content(es, path).value) + "\""))
  }

  /** The leaf at k, with the facts about its path that the proofs below use. */
  lemma ListedLeaf(p: Platform, es: seq<Entry>, k: nat)
    requires OnPlatform(p, es) && NoBackslash(es) && k < |Listing(es, [])|
    ensures var l := Listing(es, [])[k];
      Segments(l.path) && Plain(l.path) && Key(p, l) == Route(l.path) && Content(es, l.path) == Some(l.data)
  {
    ListedPaths(p.sep, es, [], k);
    ListedHasContent(p.sep, es, [], k);
    var l := Listing(es, [])[k];
    assert l.path[0..] == l.path;
    forall i | 0 <= i < |l.path| ensures l.path[i] != "" && '/' !in l.path[i] && '\\' !in l.path[i] {
      assert LegalName(p.sep, l.path[i]);
    }
    KeyIsRoute(p.sep, l.path);
  }

  lemma KeysAreDistinct(p: Platform, es: seq<Entry>)
    requires OnPlatform(p, es) && NoBackslash(es)
    ensures DistinctKeys(Keys(p), Listing(es, []))
  {
    var ls := Listing(es, []);
    forall j, k | 0 <= j < k < |ls| ensures Keys(p)(ls[j]) != Keys(p)(ls[k]) {
      ListedLeaf(p, es, j);
      ListedLeaf(p, es, k);
      ListedOnce(p.sep, es, [], j, k);
      if Route(ls[j].path) == Route(ls[k].path) {
        RouteInjective(ls[j].path, ls[k].path);
      }
    }
  }

  /** Failure isolation: for any set of failing directories and file reads, a lookup finds exactly the
      files that neither fail nor lie under a failing directory, with their content and tag. */
  lemma CacheAgreesWithTree(p: Platform, es: seq<Entry>, path: seq<string>)
    requires OnPlatform(p, es) && NoBackslash(es) && Segments(path)
    ensures Faithful(p, es, path)
  {
    var ls, cache := Listing(es, []), Preloaded(p, es);
    KeysAreDistinct(p, es);
    if Content(es, path).Some? {
      ContentIsListed(es, [], path);
      assert [] + path == path;
      var k :| 0 <= k < |ls| && ls[k] == Leaf(path, Content(es, path).value);
      ListedLeaf(p, es, k);
      PutAllAt(Keys(p), Assets(p), ls, k);
    } else if Route(path) in cache {
      var k := PutAllKey(Keys(p), Assets(p), ls, Route(path));
      ListedLeaf(p, es, k);
      RouteInjective(path, ls[k].path);
      assert false;
    }
  }

  /** The cache holds as many assets as there are files that can be read, exactly when no two of them share a
      key. Without backslashes in names none do. */
  lemma CacheSize(p: Platform, es: seq<Entry>)
    ensures |Preloaded(p, es)| <= Readable(es)
    ensures |Preloaded(p, es)| == Readable(es) <==> DistinctKeys(Keys(p), Listing(es, []))
    ensures OnPlatform(p, es) && NoBackslash(es) ==> |Preloaded(p, es)| == Readable(es)
  {
    PutAllSize(Keys(p), Assets(p), Listing(es, []));
    ListingLength(es, []);
    if OnPlatform(p, es) && NoBackslash(es) {
      KeysAreDistinct(p, es);
    }
  }

  /** After an error-free preload a lookup succeeds exactly where a walk ends at a file. */
  lemma ErrorFreePreload(p: Platform, es: seq<Entry>, path: seq<string>)
    requires OnPlatform(p, es) && NoBackslash(es) && ErrorFree(es) && Segments(path)
    ensures Route(path) in Preloaded(p, es) <==> Walk(es, path).Some? && Walk(es, path).value.File?
    ensures Route(path) in Preloaded(p, es) ==> Preloaded(p, es)[Route(path)].content == Walk(es, path).value.data
  {
    CacheAgreesWithTree(p, es, path);
    ErrorFreeIsUnbroken(es, path);
  }

  /** Where the backslash is the separator, no name has one, so there the cache can always be trusted. */
  lemma BackslashSeparates(p: Platform, es: seq<Entry>)
    requires p.sep == '\\' && WellNamed(p.sep, es)
    ensures NoBackslash(es)
  {
    forall k, i | 0 <= k < |Listing(es, [])| && 0 <= i < |Listing(es, [])[k].path|
      ensures '\\' !in Listing(es, [])[k].path[i]
    {
      ListedPaths(p.sep, es, [], k);
      assert LegalName(p.sep, Listing(es, [])[k].path[i]);
    }
  }

  lemma {:induction false} KeysHaveNone(p: Platform, ls: seq<Leaf>)
    ensures forall key | key in Stored(p, map[], ls) :: '\\' !in key
  {
    if ls != [] {
      KeysHaveNone(p, ls[..|ls| - 1]);
      KeysHaveNoBackslash(UrlPath(p.sep, ls[|ls| - 1].path));
    }
  }

  /** Exactly when the cache can be trusted. A file name may contain a backslash where the separator is a
      slash; the scan turns it into a slash, and that file is then not found under its own path. */
  lemma FaithfulIffNoBackslash(p: Platform, es: seq<Entry>)
    requires OnPlatform(p, es)
    ensures (forall path | Segments(path) :: Faithful(p, es, path)) <==> NoBackslash(es)
  {
    if NoBackslash(es) {
      forall path | Segments(path) ensures Faithful(p, es, path) {
        CacheAgreesWithTree(p, es, path);
      }
    } else {
      var k, i :| 0 <= k < |Listing(es, [])| && 0 <= i < |Listing(es, [])[k].path| && '\\' in Listing(es, [])[k].path[i];
      var path := Listing(es, [])[k].path;
      ListedPaths(p.sep, es, [], k);
      ListedHasContent(p.sep, es, [], k);
      assert path[0..] == path;
      forall i | 0 <= i < |path| ensures path[i] != "" && '/' !in path[i] {
        assert LegalName(p.sep, path[i]);
      }
      RouteKeepsBackslash(path, i);
      KeysHaveNone(p, Listing(es, []));
      assert Segments(path) && !Faithful(p, es, path);
    }
  }

  /** A file that is there, can be read, and is not found. */
  lemma BackslashFileIsNotFound(p: Platform, data: Bytes)
    requires p.sep == '/'
    ensures var es, path := [Entry("a\\b", File(true, data))], ["a\\b"];
      OnPlatform(p, es) && Segments(path) && Content(es, path) == Some(data) && Route(path) !in Preloaded(p, es)
  {
    var es, path := [Entry("a\\b", File(true, data))], ["a\\b"];
    assert path[0][1] == '\\';
    RouteKeepsBackslash(path, 0);
    KeysHaveNone(p, Listing(es, []));
  }

  // ---------------------------------------------------------------- failures and changes

  predicate Fails(n: Option<Node>) { n.Some? && (n.value.File? || n.value.Dir?) && !n.value.readable }

  /** The end of a path is unbroken if nothing fails on the way there. */
  lemma {:induction false} UnbrokenIff(es: seq<Entry>, path: seq<string>)
    ensures Unbroken(es, path) <==> forall n | 1 <= n <= |path| :: !Fails(Walk(es, path[..n]))
    decreases |path|
  {
    if path != [] {
      var first := Find(es, path[0]);
      assert path[..1] == [path[0]] && Walk(es, path[..1]) == first;
      if first.Some? && first.value.Dir? {
        var sub := first.value.entries;
        UnbrokenIff(sub, path[1..]);
        forall n | 2 <= n <= |path| ensures Walk(es, path[..n]) == Walk(sub, path[1..][..n - 1]) {
          assert path[..n][1..] == path[1..][..n - 1];
        }
        assert forall n | 1 <= n <= |path[1..]| :: Walk(sub, path[1..][..n]) == Walk(es, path[..n + 1]);
      } else {
        forall n | 2 <= n <= |path| ensures Walk(es, path[..n]).None? {
          assert path[..n][0] == path[0];
        }
      }
    }
  }

  /** A path is found exactly if it leads to a file and nothing on the way there fails, the file included. */
  lemma FoundIff(p: Platform, es: seq<Entry>, path: seq<string>)
    requires OnPlatform(p, es) && NoBackslash(es) && Segments(path)
    ensures Route(path) in Preloaded(p, es) <==>
            Walk(es, path).Some? && Walk(es, path).value.File? && forall n | 1 <= n <= |path| :: !Fails(Walk(es, path[..n]))
  {
    CacheAgreesWithTree(p, es, path);
    UnbrokenIff(es, path);
  }

  /** A tag made from other content is still the file's exactly if both hash alike. */
  lemma TagStaysIff(p: Platform, es: seq<Entry>, path: seq<string>, before: Bytes)
    requires OnPlatform(p, es) && NoBackslash(es) && Segments(path) && Route(path) in Preloaded(p, es)
    ensures Walk(es, path).Some? && Walk(es, path).value.File?
    ensures Preloaded(p, es)[Route(path)].etag == ETag(p, before) <==> p.md5(Walk(es, path).value.data) == p.md5(before)
  {
    CacheAgreesWithTree(p, es, path);
    Quoted(p.md5(Walk(es, path).value.data), p.md5(before));
  }

  lemma Quoted(a: string, b: string)
    ensures "\"" + a + "\"" == "\"" + b + "\"" <==> a == b
  {
    var s, t := "\"" + a + "\"", "\"" + b + "\"";
    assert s[1..|s| - 1] == a && t[1..|t| - 1] == b;
  }
}
