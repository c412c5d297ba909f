/** The client directory as a tree, and which of its files a scan can reach. */
module AssetTree {
  import opened Options
  import opened AssetPaths

  newtype Byte = b: int | 0 <= b < 256
  type Bytes = seq<Byte>

  /** `readable` is false where readdir or readFile fails. `Special` is neither file nor directory. */
  datatype Node =
    | File(readable: bool, data: Bytes)
    | Dir(readable: bool, entries: seq<Entry>)
    | Special
  datatype Entry = Entry(name: string, node: Node)

  /** What a file system guarantees of a directory: legal names, no name twice, all the way down. */
  predicate WellNamed(sep: char, es: seq<Entry>) {
    && (forall i | 0 <= i < |es| :: LegalName(sep, es[i].name))
    && (forall i, j | 0 <= i < j < |es| :: es[i].name != es[j].name)
    && (forall i | 0 <= i < |es| :: es[i].node.Dir? ==> WellNamed(sep, es[i].node.entries))
  }

  /** The entry of that name. */
  function Find(es: seq<Entry>, name: string): Option<Node> {
    if es == [] then None
    else if es[|es| - 1].name == name then Some(es[|es| - 1].node)
    else Find(es[..|es| - 1], name)
  }

  /** Walking the tree along path segments. Failures play no part. */
  function Walk(es: seq<Entry>, path: seq<string>): Option<Node>
    decreases |path|
  {
    if path == [] then None
    else
      var n := Find(es, path[0]);
      if |path| == 1 || n.None? then n
      else if n.value.Dir? then Walk(n.value.entries, path[1..]) else None
  }

  /** No directory on the way to the end of the path fails, nor does what lies there. */
  predicate Unbroken(es: seq<Entry>, path: seq<string>)
    decreases |path|
  {
    path == [] ||
    match Find(es, path[0])
    case None => true
    case Some(Special) => true
    case Some(File(readable, _)) => readable
    case Some(Dir(readable, sub)) => readable && Unbroken(sub, path[1..])
  }

  /** The content a client should get for a path: that of a file which neither fails nor lies under
      a directory that fails. */
  function Content(es: seq<Entry>, path: seq<string>): Option<Bytes> {
    match Walk(es, path)
    case Some(File(_, data)) => if Unbroken(es, path) then Some(data) else None
    case _ => None
  }

  /** No read fails anywhere. */
  predicate ErrorFree(es: seq<Entry>) {
    forall i | 0 <= i < |es| ::
      match es[i].node
      case File(readable, _) => readable
      case Dir(readable, sub) => readable && ErrorFree(sub)
      case Special => true
  }

  lemma {:induction false} FindIs(es: seq<Entry>, name: string)
    ensures Find(es, name).Some? ==> exists i :: 0 <= i < |es| && es[i] == Entry(name, Find(es, name).value)
    ensures Find(es, name).None? ==> forall i | 0 <= i < |es| :: es[i].name != name
  {
    if es != [] && es[|es| - 1].name != name {
      FindIs(es[..|es| - 1], name);
      assert forall i | 0 <= i < |es| - 1 :: es[i] == es[..|es| - 1][i];
    } else if es != [] {
      assert es[|es| - 1] == Entry(name, Find(es, name).value);
    }
  }

  lemma {:induction false} ErrorFreeIsUnbroken(es: seq<Entry>, path: seq<string>)
    requires ErrorFree(es)
    ensures Unbroken(es, path)
    decreases |path|
  {
    if path != [] {
      FindIs(es, path[0]);
      var n := Find(es, path[0]);
      if n.Some? && n.value.Dir? {
        ErrorFreeIsUnbroken(n.value.entries, path[1..]);
      }
    }
  }

  // ---------------------------------------------------------------- what a scan lists

  /** A file that a scan reads: its path from the client directory, and its content. */
  datatype Leaf = Leaf(path: seq<string>, data: Bytes)

  /** The files read while scanning the entries of the directory at `at`, in the order of the scan. */
  function Listing(es: seq<Entry>, at: seq<string>): seq<Leaf>
    decreases es
  {
    if es == [] then [] else Listing(es[..|es| - 1], at) + ListingOf(es[|es| - 1], at)
  }

  function ListingOf(e: Entry, at: seq<string>): seq<Leaf>
    decreases e
  {
    match e.node
    case File(true, data) => [Leaf(at + [e.name], data)]
    case Dir(true, sub) => Listing(sub, at + [e.name])
    case _ => []
  }

  /** The number of files that neither fail nor lie under a failing directory. */
  function Readable(es: seq<Entry>): nat
    decreases es
  {
    if es == [] then 0 else Readable(es[..|es| - 1]) + ReadableIn(es[|es| - 1])
  }

  function ReadableIn(e: Entry): nat
    decreases e
  {
    match e.node
    case File(true, _) => 1
    case Dir(true, sub) => Readable(sub)
    case _ => 0
  }

  lemma {:induction false} ListingLength(es: seq<Entry>, at: seq<string>)
    ensures |Listing(es, at)| == Readable(es)
    decreases es
  {
    if es != [] {
      ListingLength(es[..|es| - 1], at);
      var e := es[|es| - 1];
      if e.node.Dir? && e.node.readable {
        ListingLength(e.node.entries, at + [e.name]);
      }
    }
  }

  /** Every listed path extends `at` by a path of legal names. */
  lemma {:induction false} ListedPaths(sep: char, es: seq<Entry>, at: seq<string>, k: nat)
    requires WellNamed(sep, es) && k < |Listing(es, at)|
    ensures var p := Listing(es, at)[k].path;
      && |p| > |at| && p[..|at|] == at
      && (exists i :: 0 <= i < |es| && es[i].name == p[|at|])
      && (forall i | |at| <= i < |p| :: LegalName(sep, p[i]))
    decreases es
  {
    var init, e := es[..|es| - 1], es[|es| - 1];
    if k < |Listing(init, at)| {
      ListedPaths(sep, init, at, k);
      var i :| 0 <= i < |init| && init[i].name == Listing(es, at)[k].path[|at|];
      assert es[i].name == Listing(es, at)[k].path[|at|];
    } else if e.node.Dir? {
      var at' := at + [e.name];
      ListedPaths(sep, e.node.entries, at', k - |Listing(init, at)|);
      var p := Listing(es, at)[k].path;
      assert p[..|at|] == p[..|at'|][..|at|] == at;
      assert p[|at|] == p[..|at'|][|at|] == e.name;
    } else {
      assert Listing(es, at)[k].path == at + [e.name];
    }
  }

  /** No path is listed twice. */
  lemma {:induction false} ListedOnce(sep: char, es: seq<Entry>, at: seq<string>, j: nat, k: nat)
    requires WellNamed(sep, es) && j < k < |Listing(es, at)|
    ensures Listing(es, at)[j].path != Listing(es, at)[k].path
    decreases es
  {
    var init, e := es[..|es| - 1], es[|es| - 1];
    var n := |Listing(init, at)|;
    if k < n {
      ListedOnce(sep, init, at, j, k);
    } else if j < n {
      ListedPaths(sep, init, at, j);
      ListedOf(sep, e, at, k - n);
    } else if e.node.Dir? {
      ListedOnce(sep, e.node.entries, at + [e.name], j - n, k - n);
    }
  }

  lemma ListedOf(sep: char, e: Entry, at: seq<string>, k: nat)
    requires e.node.Dir? ==> WellNamed(sep, e.node.entries)
    requires k < |ListingOf(e, at)|
    ensures var p := ListingOf(e, at)[k].path; |p| > |at| && p[|at|] == e.name
  {
    if e.node.Dir? {
      ListedPaths(sep, e.node.entries, at + [e.name], k);
      var p := ListingOf(e, at)[k].path;
      assert p[|at|] == p[..|at| + 1][|at|];
    }
  }

  /** What is listed has the content that a walk finds. */
  lemma {:induction false} ListedHasContent(sep: char, es: seq<Entry>, at: seq<string>, k: nat)
    requires WellNamed(sep, es) && k < |Listing(es, at)|
    ensures var l := Listing(es, at)[k]; |l.path| > |at| && Content(es, l.path[|at|..]) == Some(l.data)
    decreases es
  {
    ListedPaths(sep, es, at, k);
    var init, e := es[..|es| - 1], es[|es| - 1];
    var l := Listing(es, at)[k];
    var path := l.path[|at|..];
    if k < |Listing(init, at)| {
      ListedPaths(sep, init, at, k);
      ListedHasContent(sep, init, at, k);
      assert e.name != path[0];
      assert Find(es, path[0]) == Find(init, path[0]);
    } else {
      ListedOf(sep, e, at, k - |Listing(init, at)|);
      if e.node.Dir? {
        var at' := at + [e.name];
        ListedPaths(sep, e.node.entries, at', k - |Listing(init, at)|);
        ListedHasContent(sep, e.node.entries, at', k - |Listing(init, at)|);
        assert path[1..] == l.path[|at'|..];
      } else {
        assert path == [e.name];
      }
    }
  }

  /** What a walk finds is listed. */
  lemma {:induction false} ContentIsListed(es: seq<Entry>, at: seq<string>, path: seq<string>)
    requires Content(es, path).Some?
    ensures Leaf(at + path, Content(es, path).value) in Listing(es, at)
    decreases es
  {
    var init, e := es[..|es| - 1], es[|es| - 1];
    if e.name != path[0] {
      assert Find(es, path[0]) == Find(init, path[0]);
      ContentIsListed(init, at, path);
    } else if e.node.Dir? {
      ContentIsListed(e.node.entries, at + [e.name], path[1..]);
      assert at + path == at + [e.name] + path[1..];
    } else {
      assert path == [e.name];
    }
  }
}
