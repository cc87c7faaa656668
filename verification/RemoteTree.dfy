/** The tree of remote directories: built line by line from a listing, with links to parents; a
    directory missing locally marks itself and everything above it as not synced. */
module RemoteTree {
  import opened Paths

  /****** filepath.Dir and filepath.Base *******/

  /** The path up to and including its last slash. */
  function UpToSlash(path: string): (r: string)
    ensures r <= path
  {
    if path == "" then ""
    else if path[|path| - 1] == '/' then path
    else UpToSlash(path[..|path| - 1])
  }

  function DirOf(path: string): string {
    Clean(UpToSlash(path))
  }

  function WithoutTrailing(path: string): string {
    if path != "" && path[|path| - 1] == '/' then WithoutTrailing(path[..|path| - 1]) else path
  }

  function BaseOf(path: string): string {
    if path == "" then "."
    else
      var p := WithoutTrailing(path);
      if p == "" then "/" else p[|UpToSlash(p)|..]
  }

  /****** The tree *******/

  class Dir {
    const path: string
    const name: string
    const parent: Dir?
    ghost const rank: nat
    var children: map<string, Dir>
    var synced: bool

    constructor (path: string, name: string, parent: Dir?, ghost rank: nat)
      ensures this.path == path && this.name == name && this.parent == parent && this.rank == rank
      ensures children == map[] && synced
    {
      this.path := path;
      this.name := name;
      this.parent := parent;
      this.rank := rank;
      children := map[];
      synced := true;
    }
  }

  /** `top` is on the chain of parents that starts at `item`. */
  ghost predicate Reaches(item: Dir, top: Dir)
    decreases item.rank
  {
    || item == top
    || (item.parent != null && item.parent.rank < item.rank && Reaches(item.parent, top))
  }

  /** Every parent was created before its child. */
  ghost predicate Grounded(dirs: set<Dir>) {
    forall d :: d in dirs && d.parent != null ==> d.parent in dirs && d.parent.rank < d.rank
  }

  /** Items are named after their paths and filed under their names with their parents; what is filed
      with an item has it as its parent. */
  ghost predicate ChildrenLinked(dirs: set<Dir>)
    reads dirs
  {
    forall d :: d in dirs ==>
      && d.name == BaseOf(d.path)
      && (d.parent != null && d.parent in dirs ==> d.name in d.parent.children)
      && (forall n :: n in d.children ==>
            d.children[n] in dirs && d.children[n].parent == d && d.children[n].name == n)
  }

  ghost predicate Mapped(pathMap: map<string, Dir>, dirs: set<Dir>) {
    forall p :: p in pathMap ==> pathMap[p] in dirs && pathMap[p].path == p
  }

  /** Distinct paths, each listed after its parent directory if that is listed at all. */
  ghost predicate ParentsFirst(listing: seq<string>) {
    && (forall i, j :: 0 <= i < j < |listing| ==> listing[i] != listing[j])
    && (forall i, j :: 0 <= i < |listing| && 0 <= j < |listing| && listing[j] == DirOf(listing[i]) && i != j ==> j < i)
  }

  /** Each item points to the item of its parent directory, if there is one. */
  ghost predicate Linked(pathMap: map<string, Dir>) {
    forall p :: p in pathMap ==>
      pathMap[p].parent == if DirOf(p) in pathMap && DirOf(p) != p then pathMap[DirOf(p)] else null
  }

  /** What the marking loop leaves: synced unless some missing item's chain passes through. */
  ghost predicate MarkedBy(dirs: set<Dir>, pathMap: map<string, Dir>, missing: set<string>)
    reads dirs
  {
    forall d :: d in dirs ==>
      (d.synced <==> forall q :: q in missing && q in pathMap ==> !Reaches(pathMap[q], d))
  }

  /** setNotSynced: unmark an item and everything above it. */
  method SetNotSynced(item: Dir, ghost dirs: set<Dir>)
    requires item in dirs && Grounded(dirs)
    modifies dirs`synced
    ensures forall d :: d in dirs ==> d.synced == (old(d.synced) && !Reaches(item, d))
    decreases item.rank
  {
    item.synced := false;
    if item.parent != null {
      SetNotSynced(item.parent, dirs);
    }
  }

  /** One line of the listing: a new item below the item of its parent directory, if there is one yet. */
  method AddItem(path: string, pathMap: map<string, Dir>, ghost dirs: set<Dir>, ghost rank: nat) returns (item: Dir)
    requires Grounded(dirs) && Mapped(pathMap, dirs) && ChildrenLinked(dirs)
    requires forall d :: d in dirs ==> d.rank < rank
    modifies dirs`children
    ensures fresh(item) && item.path == path && item.rank == rank && item.synced
    ensures item.parent == if DirOf(path) in pathMap then pathMap[DirOf(path)] else null
    ensures Grounded(dirs + {item}) && ChildrenLinked(dirs + {item})
  {
    var parent: Dir? := if DirOf(path) in pathMap then pathMap[DirOf(path)] else null;
    item := new Dir(path, BaseOf(path), parent, rank);
    if parent != null {
      parent.children := parent.children[item.name := item];
    }
  }

  /** The first half: one item per line, in the order of the listing. */
  method ReadListing(listing: seq<string>) returns (pathMap: map<string, Dir>, ghost dirs: set<Dir>)
    ensures fresh(dirs) && Grounded(dirs) && Mapped(pathMap, dirs) && ChildrenLinked(dirs)
    ensures pathMap.Keys == set i | 0 <= i < |listing| :: listing[i]
    ensures forall d :: d in dirs ==> d.synced
    ensures ParentsFirst(listing) ==> Linked(pathMap)
  {
    pathMap, dirs := map[], {};
    var i := 0;
    while i < |listing|
      invariant 0 <= i <= |listing|
      invariant fresh(dirs) && Grounded(dirs) && Mapped(pathMap, dirs) && ChildrenLinked(dirs)
      invariant pathMap.Keys == set j | 0 <= j < i :: listing[j]
      invariant forall d :: d in dirs ==> d.synced && d.rank < i
      invariant ParentsFirst(listing) ==> Linked(pathMap)
    {
      var item := AddItem(listing[i], pathMap, dirs, i);
      if ParentsFirst(listing) {
        StaysLinked(listing, i, pathMap, item);
      }
      pathMap := pathMap[listing[i] := item];
      dirs := dirs + {item};
      i := i + 1;
    }
  }

  lemma StaysLinked(listing: seq<string>, i: nat, pathMap: map<string, Dir>, item: Dir)
    requires i < |listing| && ParentsFirst(listing) && Linked(pathMap)
    requires pathMap.Keys == set j | 0 <= j < i :: listing[j]
    requires item.parent == if DirOf(listing[i]) in pathMap then pathMap[DirOf(listing[i])] else null
    ensures Linked(pathMap[listing[i] := item])
  {
    var path := listing[i];
    assert path !in pathMap;
    forall p | p in pathMap ensures DirOf(p) != path {
      var j :| 0 <= j < i && listing[j] == p;
    }
  }

  /** The second half: the map is visited in an arbitrary order. */
  method MarkMissing(pathMap: map<string, Dir>, local: set<string>, ghost dirs: set<Dir>)
    requires Grounded(dirs) && Mapped(pathMap, dirs) && forall d :: d in dirs ==> d.synced
    modifies dirs`synced
    ensures MarkedBy(dirs, pathMap, pathMap.Keys - local)
  {
    var rest := pathMap.Keys;
    while rest != {}
      invariant rest <= pathMap.Keys
      invariant MarkedBy(dirs, pathMap, pathMap.Keys - rest - local)
      decreases rest
    {
      var path :| path in rest;
      ghost var missing := pathMap.Keys - rest - local;
      if path !in local {
        SetNotSynced(pathMap[path], dirs);
        assert pathMap.Keys - (rest - {path}) - local == missing + {path};
      } else {
        assert pathMap.Keys - (rest - {path}) - local == missing;
      }
      rest := rest - {path};
    }
    assert pathMap.Keys - {} - local == pathMap.Keys - local;
  }

  /****** What synced means *******/

  /** Clean absolute paths, of which no path and its ancestor are listed with a gap between them: whatever
      is listed strictly below a listed path has its parent directory listed. */
  ghost predicate NoGaps(paths: set<string>) {
    && AllClean(paths)
    && (forall p, q :: p in paths && q in paths && p != q && Under(Names(q), Names(p)) ==> DirOf(q) in paths)
  }

  predicate AllClean(paths: set<string>) {
    forall p :: p in paths ==> Rooted(p) && Clean(p) == p
  }

  lemma {:induction false} SegmentsThenSlash(s: string)
    ensures Segments(s + "/") == Segments(s) + [""]
  {
    if s == "" {
      assert s + "/" == "/";
    } else {
      SegmentsThenSlash(s[1..]);
      assert (s + "/")[1..] == s[1..] + "/";
    }
  }

  lemma {:induction false} WalkTrailing(rooted: bool, out: seq<string>, segs: seq<string>)
    ensures Walk(rooted, out, segs + [""]) == Walk(rooted, out, segs)
    decreases |segs|
  {
    if segs == [] {
      assert segs + [""] == [""];
    } else {
      WalkTrailing(rooted, Visit(rooted, out, segs[0]), segs[1..]);
      assert (segs + [""])[1..] == segs[1..] + [""];
    }
  }

  lemma CleanDropsTrailingSlash(names: seq<string>)
    requires ValidNames(names)
    ensures Clean(Body(names) + "/") == Render(names)
  {
    var s := Body(names) + "/";
    SegmentsThenSlash(Body(names));
    WalkTrailing(true, [], Segments(Body(names)));
    SegmentsOfBody(names);
    WalkOverValidNames(true, [], names);
    assert ([""] + names)[1..] == names;
    assert Walk(true, [], [""] + names) == Walk(true, [], names);
    assert [] + names == names;
    assert Rooted(s) && Names(s) == names;
  }

  lemma {:induction false} UpToSlashStops(s: string, n: string)
    requires '/' !in n && s != "" && s[|s| - 1] == '/'
    ensures UpToSlash(s + n) == s
  {
    if n == "" {
      assert s + n == s;
    } else {
      assert (s + n)[..|s + n| - 1] == s + n[..|n| - 1];
      UpToSlashStops(s, n[..|n| - 1]);
    }
  }

  lemma {:induction false} BodyOfFront(names: seq<string>)
    requires names != []
    ensures Body(names) == Body(names[..|names| - 1]) + "/" + names[|names| - 1]
  {
    if |names| == 1 {
    } else {
      BodyOfFront(names[1..]);
      assert names[1..][..|names| - 2] == names[..|names| - 1][1..];
    }
  }

  /** The parent directory has all names but the last. */
  lemma DirOfRendered(names: seq<string>)
    requires ValidNames(names) && names != []
    ensures DirOf(Render(names)) == Render(names[..|names| - 1])
  {
    var n := |names| - 1;
    BodyOfFront(names);
    UpToSlashStops(Body(names[..n]) + "/", names[n]);
    CleanDropsTrailingSlash(names[..n]);
  }

  lemma {:induction false} NoTrailingSlash(s: string)
    requires s != "" && s[|s| - 1] != '/'
    ensures WithoutTrailing(s) == s
  {}

  /** The base name is the last name; that of the root is a slash. */
  lemma BaseOfRendered(names: seq<string>)
    requires ValidNames(names)
    ensures BaseOf(Render(names)) == if names == [] then "/" else names[|names| - 1]
  {
    if names == [] {
      assert WithoutTrailing("/") == "";
    } else {
      var n := |names| - 1;
      var front, last := Body(names[..n]) + "/", names[n];
      BodyOfFront(names);
      assert Render(names) == front + last;
      assert (front + last)[|front + last| - 1] == last[|last| - 1];
      NoTrailingSlash(front + last);
      UpToSlashStops(front, last);
      assert (front + last)[|front|..] == last;
    }
  }

  lemma CleanRendered(p: string)
    requires Rooted(p) && Clean(p) == p
    ensures ValidNames(Names(p)) && p == Render(Names(p))
    ensures Names(p) == [] <==> p == "/"
    ensures Names(p) != [] ==>
      && Names(DirOf(p)) == Names(p)[..|Names(p)| - 1]
      && DirOf(p) != p
  {
    CleanIsRendered(p);
    RootOnly(Names(p));
    if Names(p) != [] {
      var front := Names(p)[..|Names(p)| - 1];
      DirOfRendered(Names(p));
      RenderRoundTrip(front);
    }
  }

  /** Without gaps the chain of parents follows the names. */
  lemma {:induction false} ChainsFollowNames(pathMap: map<string, Dir>, dirs: set<Dir>, p: string, q: string)
    requires Grounded(dirs) && Mapped(pathMap, dirs) && Linked(pathMap) && NoGaps(pathMap.Keys)
    requires p in pathMap && q in pathMap
    ensures Reaches(pathMap[q], pathMap[p]) <==> Under(Names(q), Names(p))
    decreases |Names(q)|
  {
    CleanRendered(p);
    CleanRendered(q);
    if p == q {
    } else if q == "/" {
      assert DirOf("/") == "/" by { RootDir(); }
      assert pathMap[q].parent == null;
    } else {
      var up := DirOf(q);
      if up in pathMap {
        assert pathMap[q].parent == pathMap[up];
        ChainsFollowNames(pathMap, dirs, p, up);
        UnderParent(Names(q), Names(p));
      } else {
        assert pathMap[q].parent == null;
      }
    }
  }

  lemma UnderParent(names: seq<string>, top: seq<string>)
    requires names != [] && names != top
    ensures Under(names, top) <==> Under(names[..|names| - 1], top)
  {
    var n := |names| - 1;
    assert |top| == |names| ==> (Under(names, top) <==> top == names);
    if |top| <= n {
      assert names[..n][..|top|] == names[..|top|];
    }
  }

  lemma RootDir()
    ensures DirOf("/") == "/"
  {
    assert UpToSlash("/") == "/";
    RenderRoundTrip([]);
  }

  /** Every mapped item whose chain of parents passes through the item of `p` exists locally. */
  ghost predicate ChainsPresent(pathMap: map<string, Dir>, local: set<string>, p: string)
    requires p in pathMap
  {
    forall q :: q in pathMap && Reaches(pathMap[q], pathMap[p]) ==> q in local
  }

  /** Every listed path in the subtree of `p` exists locally. */
  ghost predicate SubtreePresent(pathMap: map<string, Dir>, local: set<string>, p: string) {
    forall q :: q in pathMap && Under(Names(q), Names(p)) ==> q in local
  }

  lemma SubtreeByChains(pathMap: map<string, Dir>, dirs: set<Dir>, local: set<string>, p: string)
    requires Grounded(dirs) && Mapped(pathMap, dirs) && Linked(pathMap) && NoGaps(pathMap.Keys) && p in pathMap
    ensures ChainsPresent(pathMap, local, p) <==> SubtreePresent(pathMap, local, p)
  {
    forall q | q in pathMap ensures Reaches(pathMap[q], pathMap[p]) <==> Under(Names(q), Names(p)) {
      ChainsFollowNames(pathMap, dirs, p, q);
    }
  }

  /** A path below a gap can be missing without `p` noticing. */
  lemma GapHidesMissing(pathMap: map<string, Dir>, dirs: set<Dir>, p: string, q: string)
    requires Mapped(pathMap, dirs) && Linked(pathMap)
    requires p in pathMap && q in pathMap && p != q && Under(Names(q), Names(p)) && DirOf(q) !in pathMap
    ensures ChainsPresent(pathMap, pathMap.Keys - {q}, p) && !SubtreePresent(pathMap, pathMap.Keys - {q}, p)
  {
    assert pathMap[q].parent == null && pathMap[q] != pathMap[p];
  }

  /** "Not reached by a missing item" and "whole remote subtree present" are the same for all items and
      all local directories if and only if the listing has no gaps. */
  lemma SyncedMeansSubtreePresent(pathMap: map<string, Dir>, dirs: set<Dir>)
    requires Grounded(dirs) && Mapped(pathMap, dirs) && Linked(pathMap) && AllClean(pathMap.Keys)
    ensures NoGaps(pathMap.Keys) <==>
      forall local: set<string>, p :: p in pathMap ==>
        (ChainsPresent(pathMap, local, p) <==> SubtreePresent(pathMap, local, p))
  {
    if NoGaps(pathMap.Keys) {
      forall local: set<string>, p | p in pathMap
        ensures ChainsPresent(pathMap, local, p) <==> SubtreePresent(pathMap, local, p)
      {
        SubtreeByChains(pathMap, dirs, local, p);
      }
    } else {
      var p, q :| p in pathMap && q in pathMap && p != q && Under(Names(q), Names(p)) && DirOf(q) !in pathMap;
      GapHidesMissing(pathMap, dirs, p, q);
    }
  }

  /****** The whole *******/

  /** The whole of buildRemoteTree after the listing has been read. Whatever the listing and whatever
      the order in which the map is visited, an item ends synced exactly when every mapped item whose
      chain of parents passes through it, itself included, exists locally. For a listing with parents
      first and no gaps this means that its whole remote subtree exists locally. */
  method BuildRemoteTree(listing: seq<string>, local: set<string>)
    returns (pathMap: map<string, Dir>, ghost dirs: set<Dir>)
    ensures fresh(dirs) && Grounded(dirs) && Mapped(pathMap, dirs) && ChildrenLinked(dirs)
    ensures pathMap.Keys == set i | 0 <= i < |listing| :: listing[i]
    ensures forall p :: p in pathMap ==> (pathMap[p].synced <==> ChainsPresent(pathMap, local, p))
    ensures ParentsFirst(listing) ==> Linked(pathMap)
    ensures ParentsFirst(listing) && NoGaps(pathMap.Keys) ==>
      forall p :: p in pathMap ==>
        (pathMap[p].synced <==> forall q :: q in pathMap && Under(Names(q), Names(p)) ==> q in local)
  {
    pathMap, dirs := ReadListing(listing);
    MarkMissing(pathMap, local, dirs);
    forall p | p in pathMap
      ensures pathMap[p].synced <==> ChainsPresent(pathMap, local, p)
      ensures Linked(pathMap) && NoGaps(pathMap.Keys) ==> (pathMap[p].synced <==> SubtreePresent(pathMap, local, p))
    {
      assert pathMap[p] in dirs;
      if Linked(pathMap) && NoGaps(pathMap.Keys) {
        SubtreeByChains(pathMap, dirs, local, p);
      }
    }
  }
}
