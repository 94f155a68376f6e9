/**
 Recursive removal of a remote directory over a server that removes exactly empty directories.
 A path is the sequence of its components; a path lies below its prefixes.
 */
module FtpRemove {

  type Path = seq<string>

  datatype Result = Success | ProtocolError

  datatype EntryType = File | Directory
  datatype Entry = Entry(name: string, entryType: EntryType)

  // ---------------------------------------------------------------- remote trees

  datatype Tree = Tree(files: set<Path>, dirs: set<Path>) {
    /** What is in a directory has that directory. */
    ghost predicate Valid() {
      && files !! dirs
      && forall p :: p in files + dirs && p != [] ==> p[..|p| - 1] in dirs
    }

    predicate Empty(path: Path) {
      forall p :: p in files + dirs ==> !(path < p)
    }

    function Children(path: Path): set<Path> {
      set p | p in files + dirs && path < p && |p| == |path| + 1
    }

    predicate HasFile(path: Path) {
      exists f :: f in files && path <= f
    }

    /** The directories at or below one of `roots` with no file beneath them. */
    function Barren(roots: set<Path>): set<Path> {
      set d | d in dirs && !HasFile(d) && Under(d, roots)
    }

    /** The server's own removal. */
    function Remove(path: Path): Tree {
      if path in dirs && Empty(path) then Tree(files, dirs - {path}) else this
    }
  }

  predicate Under(p: Path, roots: set<Path>) {
    exists r :: r in roots && r <= p
  }

  lemma {:induction false} PrefixIsDirectory(t: Tree, p: Path, d: Path)
    requires t.Valid() && p in t.files + t.dirs && d < p
    ensures d in t.dirs
    decreases |p|
  {
    var parent := p[..|p| - 1];
    if d != parent {
      assert d < parent;
      PrefixIsDirectory(t, parent, d);
    }
  }

  /** The paths that a listing of `path` names. */
  function Listed(path: Path, entries: seq<Entry>): set<Path> {
    set e | e in entries :: path + [e.name]
  }

  lemma ListedPush(path: Path, entries: seq<Entry>, e: Entry)
    ensures Listed(path, entries + [e]) == Listed(path, entries) + {path + [e.name]}
  {
    forall p | p in Listed(path, entries + [e])
      ensures p in Listed(path, entries) + {path + [e.name]}
    {
    }
    forall p | p in Listed(path, entries) + {path + [e.name]}
      ensures p in Listed(path, entries + [e])
    {
      if p == path + [e.name] {
        assert e in entries + [e];
      } else {
        var x :| x in entries && p == path + [x.name];
        assert x in entries + [e];
      }
    }
  }

  class Server {
    var files: set<Path>
    var dirs: set<Path>

    function Now(): Tree
      reads this
    {
      Tree(files, dirs)
    }

    constructor (t: Tree)
      ensures Now() == t
    {
      files, dirs := t.files, t.dirs;
    }

    /** Lists a directory in some order; anything else is an error. */
    method ListDirectory(path: Path) returns (r: Result, entries: seq<Entry>)
      ensures r.Success? <==> path in dirs
      ensures r.Success? ==>
                Listed(path, entries) == Now().Children(path)
                && forall e :: e in entries ==> (e.entryType == Directory <==> path + [e.name] in dirs)
    {
      if path !in dirs {
        return ProtocolError, [];
      }
      r, entries := Success, [];
      var rest := Now().Children(path);
      while rest != {}
        invariant rest <= Now().Children(path)
        invariant Listed(path, entries) == Now().Children(path) - rest
        invariant forall e :: e in entries ==> (e.entryType == Directory <==> path + [e.name] in dirs)
        decreases rest
      {
        var p :| p in rest;
        var e := Entry(p[|path|], if p in dirs then Directory else File);
        assert path + [e.name] == p;
        ListedPush(path, entries, e);
        entries := entries + [e];
        rest := rest - {p};
      }
    }

    method RemoveDirectory(path: Path) returns (r: Result)
      modifies this
      ensures Now() == old(Now()).Remove(path)
      ensures r.Success? <==> Now() != old(Now())
    {
      if path in dirs && Now().Empty(path) {
        dirs := dirs - {path};
        return Success;
      }
      return ProtocolError;
    }
  }

  /** The child of `path` on the way to `p`. */
  function Toward(path: Path, p: Path): Path
    requires path < p
  {
    p[..|path| + 1]
  }

  lemma ChildOnTheWay(t: Tree, path: Path, p: Path)
    requires t.Valid() && p in t.files + t.dirs && path < p
    ensures Toward(path, p) in t.Children(path) && Toward(path, p) <= p
    ensures p in t.dirs || Toward(path, p) != p ==> Toward(path, p) in t.dirs
  {
    var c := Toward(path, p);
    if c != p {
      PrefixIsDirectory(t, p, c);
    }
  }

  ghost predicate ChildDirectories(t: Tree, path: Path, roots: set<Path>) {
    forall c :: c in roots <==> c in t.Children(path) && c in t.dirs
  }

  lemma UnderChildren(t: Tree, path: Path, roots: set<Path>, d: Path)
    requires t.Valid() && d in t.dirs && ChildDirectories(t, path, roots)
    ensures Under(d, roots) <==> path < d
  {
    if path < d {
      ChildOnTheWay(t, path, d);
      assert Toward(path, d) in roots;
    }
  }

  lemma UnderOne(path: Path, d: Path)
    ensures Under(d, {path}) <==> path <= d
  {
    if path <= d {
      assert path in {path};
    }
  }

  /** What is barren at or below a directory is what is barren below its children, and itself if it has no file. */
  lemma {:induction false} BarrenSplitsAt(t: Tree, path: Path, roots: set<Path>, d: Path)
    requires t.Valid() && path in t.dirs && d in t.dirs && ChildDirectories(t, path, roots)
    ensures d in t.Barren({path}) <==> d in t.Barren(roots) || (d == path && !t.HasFile(path))
    ensures d == path ==> d !in t.Barren(roots)
  {
    UnderChildren(t, path, roots, d);
    UnderOne(path, d);
  }

  lemma {:induction false} BarrenSplits(t: Tree, path: Path, roots: set<Path>)
    requires t.Valid() && path in t.dirs && ChildDirectories(t, path, roots)
    ensures t.Barren({path}) == t.Barren(roots) + (if t.HasFile(path) then {} else {path})
    ensures path !in t.Barren(roots)
  {
    forall d | d in t.dirs
      ensures d in t.Barren({path}) <==> d in t.Barren(roots) || (d == path && !t.HasFile(path))
      ensures d == path ==> d !in t.Barren(roots)
    {
      BarrenSplitsAt(t, path, roots, d);
    }
    assert forall d :: d in t.Barren({path}) || d in t.Barren(roots) ==> d in t.dirs;
  }

  lemma BarrenIsClosed(t: Tree, roots: set<Path>, d: Path, p: Path)
    requires d in t.Barren(roots) && d <= p && p in t.files + t.dirs
    ensures p in t.Barren(roots)
  {
    assert p !in t.files;
    var r :| r in roots && r <= d;
    assert r <= p;
  }

  lemma {:induction false} EverythingBelowIsBarren(t: Tree, path: Path, roots: set<Path>, p: Path)
    requires t.Valid() && ChildDirectories(t, path, roots)
    requires !t.HasFile(path) && path < p && p in t.dirs
    ensures p in t.Barren(roots)
  {
    UnderChildren(t, path, roots, p);
  }

  lemma FileKeepsNonEmpty(t: Tree, path: Path)
    requires path !in t.files && t.HasFile(path)
    ensures !t.Empty(path)
  {
    var f :| f in t.files && path <= f;
    assert f != path && f in t.files + t.dirs;
  }

  lemma NothingBelow(t: Tree, path: Path, gone: set<Path>)
    requires !t.HasFile(path)
    requires forall p :: p in t.dirs && path < p ==> p in gone
    ensures t.(dirs := t.dirs - gone).Empty(path)
  {
  }

  /** Clearing out what is barren below every child leaves a directory empty exactly if it had no file. */
  lemma {:induction false} ClearedIsEmptyIff(t: Tree, path: Path, roots: set<Path>)
    requires t.Valid() && path in t.dirs && ChildDirectories(t, path, roots)
    ensures Cleared(t, roots).Empty(path) <==> !t.HasFile(path)
  {
    var gone := t.Barren(roots);
    if t.HasFile(path) {
      FileKeepsNonEmpty(t.(dirs := t.dirs - gone), path);
    } else {
      forall p | p in t.dirs && path < p
        ensures p in gone
      {
        EverythingBelowIsBarren(t, path, roots, p);
      }
      NothingBelow(t, path, gone);
    }
  }

  /** A tree without what was barren at or below `roots`. */
  function Cleared(t: Tree, roots: set<Path>): Tree {
    t.(dirs := t.dirs - t.Barren(roots))
  }

  lemma ClearingStaysValid(t: Tree, roots: set<Path>)
    requires t.Valid()
    ensures Cleared(t, roots).Valid()
  {
    forall p | p in t.files + (t.dirs - t.Barren(roots)) && p != []
      ensures p[..|p| - 1] in t.dirs - t.Barren(roots)
    {
      var parent := p[..|p| - 1];
      assert parent in t.dirs && parent <= p;
      if parent in t.Barren(roots) {
        BarrenIsClosed(t, roots, parent, p);
      }
    }
  }

  /** Clearing more roots, one after the other. */
  lemma ClearingAdds(t: Tree, roots: set<Path>, c: Path)
    ensures Cleared(Cleared(t, roots), {c}) == Cleared(t, roots + {c})
  {
    var cleared := Cleared(t, roots);
    forall d | d in t.dirs
      ensures d in t.Barren(roots + {c}) <==> d in t.Barren(roots) || d in cleared.Barren({c})
    {
      UnderOne(c, d);
      UnderEither(d, roots, c);
      assert t.HasFile(d) <==> cleared.HasFile(d);
    }
  }

  lemma UnderEither(d: Path, roots: set<Path>, c: Path)
    ensures Under(d, roots + {c}) <==> Under(d, roots) || c <= d
  {
    if c <= d {
      assert c in roots + {c};
    } else if Under(d, roots) {
      var r :| r in roots && r <= d;
      assert r in roots + {c};
    }
  }

  /** All that a recursive removal of `path` leaves. */
  function Pruned(t: Tree, path: Path): Tree {
    Cleared(t, {path})
  }

  /** The child directories among the first entries of a listing. */
  ghost function Visited(path: Path, entries: seq<Entry>): set<Path> {
    set e | e in entries && e.entryType == Directory :: path + [e.name]
  }

  lemma VisitedPush(path: Path, entries: seq<Entry>, i: nat)
    requires i < |entries|
    ensures Visited(path, entries[..i + 1])
            == Visited(path, entries[..i]) + (if entries[i].entryType == Directory then {path + [entries[i].name]} else {})
  {
    assert entries[..i + 1] == entries[..i] + [entries[i]];
    assert entries[i] in entries[..i + 1];
    assert forall e :: e in entries[..i] ==> e in entries[..i + 1];
  }

  lemma VisitedAll(t: Tree, path: Path, entries: seq<Entry>)
    requires Listed(path, entries) == t.Children(path)
    requires forall e :: e in entries ==> (e.entryType == Directory <==> path + [e.name] in t.dirs)
    ensures ChildDirectories(t, path, Visited(path, entries))
  {
    forall c | c in t.Children(path) && c in t.dirs
      ensures c in Visited(path, entries)
    {
      assert c in Listed(path, entries);
      var e :| e in entries && path + [e.name] == c;
    }
    forall c | c in Visited(path, entries)
      ensures c in t.Children(path) && c in t.dirs
    {
      var e :| e in entries && e.entryType == Directory && path + [e.name] == c;
      assert c in Listed(path, entries);
    }
  }

  /** The directories that a call may still have to visit. */
  ghost function Below(t: Tree, path: Path): set<Path> {
    set d | d in t.dirs && path <= d
  }

  lemma ChildHasLessBelow(t: Tree, gone: set<Path>, path: Path, name: string)
    requires path in t.dirs
    ensures Below(t.(dirs := t.dirs - gone), path + [name]) < Below(t, path)
  {
    assert path in Below(t, path) && path !in Below(t.(dirs := t.dirs - gone), path + [name]);
  }

  lemma RemoveStaysValid(t: Tree, path: Path)
    requires t.Valid()
    ensures t.Remove(path).Valid()
  {
    forall p | p in t.Remove(path).files + t.Remove(path).dirs && p != []
      ensures p[..|p| - 1] in t.Remove(path).dirs
    {
      assert p[..|p| - 1] < p;
    }
  }

  lemma PrunedStaysValid(t: Tree, path: Path)
    requires t.Valid()
    ensures Pruned(t, path).Valid()
  {
    ClearingStaysValid(t, {path});
  }

  /** Where there is no directory, nothing is removed. */
  lemma {:induction false} MissingStays(t: Tree, path: Path)
    requires t.Valid() && path !in t.dirs
    ensures Pruned(t, path) == t == t.Remove(path)
  {
    forall d | d in t.dirs
      ensures d !in t.Barren({path})
    {
      UnderOne(path, d);
      if path <= d {
        assert path != d;
        PrefixIsDirectory(t, d, path);
      }
    }
  }

  /** With the child directories pruned, the server's own removal finishes the job. */
  lemma {:induction false} RemovalFinishes(t: Tree, path: Path, roots: set<Path>)
    requires t.Valid() && path in t.dirs && ChildDirectories(t, path, roots)
    ensures var cleared := Cleared(t, roots);
            && cleared.Remove(path) == Pruned(t, path)
            && (cleared.Remove(path) != cleared <==> !t.HasFile(path))
  {
    BarrenSplits(t, path, roots);
    ClearedIsEmptyIff(t, path, roots);
    var cleared, gone := Cleared(t, roots), t.Barren(roots);
    assert path in cleared.dirs;
    if t.HasFile(path) {
      assert t.Barren({path}) == gone;
      assert cleared.Remove(path) == cleared == Pruned(t, path);
    } else {
      assert (t.dirs - gone) - {path} == t.dirs - (gone + {path});
      assert cleared.Remove(path) == t.(dirs := t.dirs - (gone + {path})) == Pruned(t, path);
    }
  }

  /** One more entry of a listing visited. */
  lemma VisitsOne(t: Tree, path: Path, entries: seq<Entry>, i: nat)
    requires t.Valid() && path in t.dirs && i < |entries|
    ensures var now, then_ := Cleared(t, Visited(path, entries[..i])), Cleared(t, Visited(path, entries[..i + 1]));
            var child := path + [entries[i].name];
            && now.Valid()
            && Below(now, child) < Below(t, path)
            && then_ == if entries[i].entryType == Directory then Pruned(now, child) else now
  {
    var roots := Visited(path, entries[..i]);
    VisitedPush(path, entries, i);
    ClearingStaysValid(t, roots);
    ChildHasLessBelow(t, t.Barren(roots), path, entries[i].name);
    if entries[i].entryType == Directory {
      ClearingAdds(t, roots, path + [entries[i].name]);
    }
  }

  /** All entries of a listing visited. */
  lemma {:induction false} VisitsAll(t: Tree, path: Path, entries: seq<Entry>)
    requires t.Valid() && path in t.dirs
    requires Listed(path, entries) == t.Children(path)
    requires forall e :: e in entries ==> (e.entryType == Directory <==> path + [e.name] in t.dirs)
    ensures var cleared := Cleared(t, Visited(path, entries));
            && cleared.Remove(path) == Pruned(t, path)
            && (cleared.Remove(path) != cleared <==> !t.HasFile(path))
  {
    VisitedAll(t, path, entries);
    RemovalFinishes(t, path, Visited(path, entries));
  }

  /**
   The client's removal, ignoring what the recursive calls return.  It leaves the tree pruned of
   every directory at or below the path with no file beneath, touches nothing else, and succeeds
   exactly if the path was a directory without files.
   */
  method RemoveDirectory(server: Server, path: Path, recursive: bool) returns (r: Result)
    requires server.Now().Valid()
    modifies server
    ensures server.Now().Valid()
    ensures server.Now() == if recursive then Pruned(old(server.Now()), path) else old(server.Now()).Remove(path)
    ensures recursive ==> (r.Success? <==> path in old(server.dirs) && !old(server.Now()).HasFile(path))
    ensures !recursive ==> (r.Success? <==> path in old(server.dirs) && old(server.Now()).Empty(path))
    decreases Below(server.Now(), path)
  {
    ghost var t := server.Now();
    RemoveStaysValid(t, path);
    PrunedStaysValid(t, path);
    if recursive {
      var listed, entries := server.ListDirectory(path);
      if listed.Success? {
        for i := 0 to |entries|
          invariant server.Now() == Cleared(t, Visited(path, entries[..i]))
        {
          VisitsOne(t, path, entries, i);
          if entries[i].entryType == Directory {
            var _ := RemoveDirectory(server, path + [entries[i].name], true);
          }
        }
        assert entries[..|entries|] == entries;
        VisitsAll(t, path, entries);
      } else {
        MissingStays(t, path);
      }
    }
    r := server.RemoveDirectory(path);
  }

  // ---------------------------------------------------------------- no client could do more

  /** Any sequence of the server's own removals. */
  function RemoveAll(t: Tree, paths: seq<Path>): Tree {
    if paths == [] then t else RemoveAll(t, paths[..|paths| - 1]).Remove(paths[|paths| - 1])
  }

  lemma {:induction false} RemovedWasBarren(t: Tree, u: Tree, path: Path, p: Path)
    requires t.Valid() && path <= p && u.files == t.files && u.dirs <= t.dirs
    requires p in u.dirs && u.Empty(p)
    ensures p in t.Barren({path})
  {
    if t.HasFile(p) {
      FileKeepsNonEmpty(u, p);
    }
    UnderOne(path, p);
  }

  /** However often and in whatever order a client removes at or below the path, what the pruning leaves is left. */
  lemma {:induction false} PrunedIsLeast(t: Tree, path: Path, paths: seq<Path>)
    requires t.Valid()
    requires forall i :: 0 <= i < |paths| ==> path <= paths[i]
    ensures RemoveAll(t, paths).files == t.files
    ensures t.dirs - t.Barren({path}) <= RemoveAll(t, paths).dirs <= t.dirs
  {
    if paths != [] {
      var rest, p := paths[..|paths| - 1], paths[|paths| - 1];
      PrunedIsLeast(t, path, rest);
      var u := RemoveAll(t, rest);
      if p in u.dirs && u.Empty(p) {
        RemovedWasBarren(t, u, path, p);
      }
    }
  }
}
