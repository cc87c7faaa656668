/** Directory paths: the cleaning done before a path is reserved, the overlap test of the Lua
    scripts, the overlap test of the Go code, and what both of them mean. */
module Paths {

  /****** Cleaning *******/

  /** The text between slashes, first to last; there is always at least one segment. */
  function Segments(s: string): (r: seq<string>)
    ensures |r| >= 1
  {
    if s == "" then [""]
    else if s[0] == '/' then [""] + Segments(s[1..])
    else
      var r := Segments(s[1..]);
      [[s[0]] + r[0]] + r[1..]
  }

  /** One segment of the walk that cleans a path: "." and "" vanish, ".." removes a name. */
  function Visit(rooted: bool, out: seq<string>, seg: string): seq<string> {
    if seg == "" || seg == "." then out
    else if seg != ".." then out + [seg]
    else if out != [] && out[|out| - 1] != ".." then out[..|out| - 1]
    else if rooted then out
    else out + [".."]
  }

  function Walk(rooted: bool, out: seq<string>, segs: seq<string>): seq<string>
    decreases |segs|
  {
    if segs == [] then out else Walk(rooted, Visit(rooted, out, segs[0]), segs[1..])
  }

  /** Each name preceded by a slash. */
  function Body(names: seq<string>): string {
    if names == [] then "" else "/" + names[0] + Body(names[1..])
  }

  /** The clean absolute path with the given names. */
  function Render(names: seq<string>): string {
    if names == [] then "/" else Body(names)
  }

  predicate Rooted(s: string) {
    s != "" && s[0] == '/'
  }

  /** The names that remain of a path after cleaning. */
  function Names(s: string): seq<string> {
    Walk(Rooted(s), [], Segments(s))
  }

  /** filepath.Clean on a system whose separator is a slash. */
  function Clean(s: string): string {
    var names := Names(s);
    if Rooted(s) then Render(names)
    else if names == [] then "."
    else Body(names)[1..]
  }

  predicate ValidName(n: string) {
    n != "" && n != "." && n != ".." && '/' !in n
  }

  predicate ValidNames(names: seq<string>) {
    forall i :: 0 <= i < |names| ==> ValidName(names[i])
  }

  /****** The two overlap tests *******/

  /** string.sub(s, 1, n): at most the first n characters. */
  function LuaSub(s: string, n: nat): string {
    if n <= |s| then s[..n] else s
  }

  /** The overlap test of the store's Lua scripts. */
  predicate LuaOverlap(a: string, b: string) {
    || a == b
    || a == "/"
    || b == "/"
    || LuaSub(a, |b| + 1) == b + "/"
    || LuaSub(b, |a| + 1) == a + "/"
  }

  /** isSameOrDescendant of the server. */
  predicate IsSameOrDescendant(path: string, parent: string) {
    if path == parent then true
    else if parent == "/" then parent <= path
    else parent + "/" <= path
  }

  /** pathsOverlap of the server. */
  predicate PathsOverlap(left: string, right: string) {
    IsSameOrDescendant(Clean(left), Clean(right)) || IsSameOrDescendant(Clean(right), Clean(left))
  }

  /** The directory named by `names` lies in the subtree rooted at `top`. */
  predicate Under(names: seq<string>, top: seq<string>) {
    top <= names
  }

  /** Some directory lies in both subtrees. */
  ghost predicate SubtreesMeet(a: seq<string>, b: seq<string>) {
    exists d: seq<string> :: ValidNames(d) && Under(d, a) && Under(d, b)
  }

  /****** Cleaning is a normal form *******/

  lemma {:induction false} SegmentsHaveNoSlash(s: string)
    ensures forall i :: 0 <= i < |Segments(s)| ==> '/' !in Segments(s)[i]
  {
    if s != "" {
      SegmentsHaveNoSlash(s[1..]);
      var r := Segments(s[1..]);
      if s[0] != '/' {
        assert '/' !in [s[0]] + r[0];
      }
    }
  }

  lemma {:induction false} WalkKeepsNamesValid(out: seq<string>, segs: seq<string>)
    requires ValidNames(out)
    requires forall i :: 0 <= i < |segs| ==> '/' !in segs[i]
    ensures ValidNames(Walk(true, out, segs))
    decreases |segs|
  {
    if segs != [] {
      WalkKeepsNamesValid(Visit(true, out, segs[0]), segs[1..]);
    }
  }

  lemma {:induction false} WalkOverValidNames(rooted: bool, out: seq<string>, names: seq<string>)
    requires ValidNames(names)
    ensures Walk(rooted, out, names) == out + names
    decreases |names|
  {
    if names == [] {
    } else {
      WalkOverValidNames(rooted, out + [names[0]], names[1..]);
      assert out + [names[0]] + names[1..] == out + names;
    }
  }

  lemma {:induction false} SegmentsOfName(n: string, rest: string)
    requires '/' !in n
    requires rest == "" || rest[0] == '/'
    ensures Segments(n + rest) == [n] + Segments(rest)[1..]
  {
    if n == "" {
      assert n + rest == rest;
      assert Segments(rest)[0] == "";
    } else {
      assert (n + rest)[1..] == n[1..] + rest;
      SegmentsOfName(n[1..], rest);
      assert [n[0]] + n[1..] == n;
    }
  }

  lemma {:induction false} SegmentsOfBody(names: seq<string>)
    requires forall i :: 0 <= i < |names| ==> '/' !in names[i]
    ensures Segments(Body(names)) == [""] + names
  {
    if names == [] {
    } else {
      var rest, line := Body(names[1..]), Body(names);
      SegmentsOfBody(names[1..]);
      SegmentsOfName(names[0], rest);
      assert line[0] == '/' && line[1..] == names[0] + rest;
      calc {
        Segments(line);
        [""] + Segments(names[0] + rest);
        [""] + ([names[0]] + ([""] + names[1..])[1..]);
        { assert ([""] + names[1..])[1..] == names[1..]; }
        [""] + ([names[0]] + names[1..]);
      }
    }
  }

  /** Cleaning an absolute path gives the rendering of valid names. */
  lemma CleanIsRendered(s: string)
    requires Rooted(s)
    ensures ValidNames(Names(s))
    ensures Clean(s) == Render(Names(s))
  {
    SegmentsHaveNoSlash(s);
    WalkKeepsNamesValid([], Segments(s));
  }

  /** A rendered path is clean, and its names can be read back. */
  lemma RenderRoundTrip(names: seq<string>)
    requires ValidNames(names)
    ensures Rooted(Render(names))
    ensures Names(Render(names)) == names
    ensures Clean(Render(names)) == Render(names)
  {
    if names == [] {
      assert Segments("/") == ["", ""] by { assert "/"[1..] == ""; }
      assert Walk(true, [], ["", ""]) == [] by { assert ["", ""][1..] == [""]; }
    } else {
      SegmentsOfBody(names);
      assert ([""] + names)[1..] == names;
      WalkOverValidNames(true, [], names);
      assert Walk(true, [], [""] + names) == Walk(true, [], names);
    }
  }

  lemma {:induction false} WalkInTwo(rooted: bool, out: seq<string>, a: seq<string>, b: seq<string>)
    ensures Walk(rooted, out, a + b) == Walk(rooted, Walk(rooted, out, a), b)
    decreases |a|
  {
    if a == [] {
      assert a + b == b;
    } else {
      var next := Visit(rooted, out, a[0]);
      WalkInTwo(rooted, next, a[1..], b);
      assert (a + b)[0] == a[0] && (a + b)[1..] == a[1..] + b;
      assert Walk(rooted, out, a + b) == Walk(rooted, next, a[1..] + b);
      assert Walk(rooted, out, a) == Walk(rooted, next, a[1..]);
    }
  }

  /** The names of a path given by its segments, after those of valid names. */
  lemma NamesOfBody(a: seq<string>, segs: seq<string>)
    requires ValidNames(a) && segs != [] && forall i :: 0 <= i < |segs| ==> '/' !in segs[i]
    ensures Rooted(Body(a + segs)) && Names(Body(a + segs)) == Walk(true, a, segs)
  {
    SegmentsOfBody(a + segs);
    assert ([""] + (a + segs))[1..] == a + segs;
    WalkInTwo(true, [], a, segs);
    WalkOverValidNames(true, [], a);
    assert [] + a == a;
  }

  lemma WalkOn(out: seq<string>, seg: string, b: seq<string>)
    requires ValidNames(b)
    ensures Walk(true, out, [seg] + b) == Visit(true, out, seg) + b
  {
    assert ([seg] + b)[1..] == b;
    WalkOverValidNames(true, Visit(true, out, seg), b);
  }

  lemma SegmentIsVisited(a: seq<string>, seg: string, b: seq<string>)
    requires ValidNames(a) && '/' !in seg && ValidNames(b)
    ensures Clean(Body(a + [seg] + b)) == Render(Visit(true, a, seg) + b)
  {
    assert a + [seg] + b == a + ([seg] + b);
    NamesOfBody(a, [seg] + b);
    WalkOn(a, seg, b);
  }

  /** What cleaning does: ".." takes away the name before it. */
  lemma CleanResolvesParents(a: seq<string>, n: string, b: seq<string>)
    requires ValidNames(a) && ValidName(n) && ValidNames(b)
    ensures Clean(Body(a + [n] + [".."] + b)) == Render(a + b)
  {
    SegmentIsVisited(a + [n], "..", b);
    assert (a + [n])[..|a|] == a && (a + [n])[|a|] == n;
  }

  /** At the root, ".." takes nothing away. */
  lemma CleanStaysAtRoot(b: seq<string>)
    requires ValidNames(b)
    ensures Clean(Body([".."] + b)) == Render(b)
  {
    SegmentIsVisited([], "..", b);
    assert [] + [".."] + b == [".."] + b && [] + b == b;
  }

  /** "." and what is between two slashes vanish. */
  lemma CleanDropsEmpty(a: seq<string>, seg: string, b: seq<string>)
    requires ValidNames(a) && (seg == "." || seg == "") && ValidNames(b)
    ensures Clean(Body(a + [seg] + b)) == Render(a + b)
  {
    SegmentIsVisited(a, seg, b);
  }

  /****** What overlap means *******/

  /** Each name followed by a slash. */
  function Closed(names: seq<string>): string {
    if names == [] then "" else names[0] + "/" + Closed(names[1..])
  }

  lemma {:induction false} BodyClosed(names: seq<string>)
    ensures Body(names) + "/" == "/" + Closed(names)
  {
    if names != [] {
      BodyClosed(names[1..]);
      calc {
        Body(names) + "/";
        "/" + names[0] + Body(names[1..]) + "/";
        "/" + names[0] + (Body(names[1..]) + "/");
        "/" + names[0] + ("/" + Closed(names[1..]));
        "/" + (names[0] + "/" + Closed(names[1..]));
      }
    }
  }

  lemma FirstSlash(n: string, m: string, rest: string, more: string)
    requires '/' !in n && '/' !in m
    requires n + "/" + rest <= m + "/" + more
    ensures n == m && rest <= more
  {
    var l, r := n + "/" + rest, m + "/" + more;
    assert l[|n|] == '/' && r[|m|] == '/';
    assert forall i :: 0 <= i < |l| ==> l[i] == r[i];
    assert forall i :: 0 <= i < |n| ==> l[i] == n[i] && n[i] != '/';
    assert forall i :: 0 <= i < |m| ==> r[i] == m[i] && m[i] != '/';
    assert |n| == |m|;
    assert l[..|n|] == n && r[..|m|] == m;
    assert l[|n| + 1..] == rest && r[|m| + 1..] == more;
  }

  lemma {:induction false} ClosedPrefix(a: seq<string>, b: seq<string>)
    requires ValidNames(a) && ValidNames(b)
    ensures Closed(a) <= Closed(b) <==> a <= b
    decreases |a|
  {
    if a == [] || b == [] {
    } else {
      ClosedPrefix(a[1..], b[1..]);
      assert a == [a[0]] + a[1..] && b == [b[0]] + b[1..];
      if Closed(a) <= Closed(b) {
        FirstSlash(a[0], b[0], Closed(a[1..]), Closed(b[1..]));
        assert a <= b;
      }
      if a <= b {
        assert a[0] == b[0] && a[1..] <= b[1..];
        assert Closed(a[1..]) <= Closed(b[1..]);
        assert Closed(b) == a[0] + "/" + Closed(b[1..]);
      }
    }
  }

  lemma {:induction false} ClosedGrows(a: seq<string>, b: seq<string>)
    requires a <= b
    ensures |Closed(a)| <= |Closed(b)|
    ensures a != b ==> |Closed(a)| < |Closed(b)|
    decreases |a|
  {
    if a != [] {
      assert a[1..] <= b[1..];
      assert a[1..] == b[1..] ==> a == [a[0]] + a[1..] == [b[0]] + b[1..] == b;
      ClosedGrows(a[1..], b[1..]);
    }
  }

  /** "b followed by a slash starts a" is exactly "a lies strictly below b". */
  lemma StrictlyBelow(a: seq<string>, b: seq<string>)
    requires ValidNames(a) && ValidNames(b) && b != []
    ensures Render(b) + "/" <= Render(a) <==> Under(a, b) && a != b
  {
    BodyClosed(a);
    BodyClosed(b);
    ClosedPrefix(b, a);
    if b <= a { ClosedGrows(b, a); }
    var ra, rb := Body(a) + "/", Body(b) + "/";
    assert rb <= ra <==> b <= a by {
      assert rb == "/" + Closed(b) && ra == "/" + Closed(a);
      assert rb[1..] == Closed(b) && ra[1..] == Closed(a);
    }
    assert Body(a) == ra[..|ra| - 1];
    if a == [] {
      assert |rb| > 1;
    } else if b <= a && a != b {
      assert |rb| < |ra|;
    }
  }

  lemma RenderInjective(a: seq<string>, b: seq<string>)
    requires ValidNames(a) && ValidNames(b) && Render(a) == Render(b)
    ensures a == b
  {
    RenderRoundTrip(a);
    RenderRoundTrip(b);
  }

  lemma RootOnly(a: seq<string>)
    requires ValidNames(a)
    ensures Render(a) == "/" <==> a == []
  {
    if Render(a) == "/" { RenderInjective(a, []); }
  }

  lemma LuaSubIsPrefix(s: string, p: string)
    ensures LuaSub(s, |p| + 1) == p + "/" <==> p + "/" <= s
  {
    var q := p + "/";
    assert |q| == |p| + 1;
    if LuaSub(s, |p| + 1) == q { assert q <= s; }
  }

  lemma DescendantMeansUnder(a: seq<string>, b: seq<string>)
    requires ValidNames(a) && ValidNames(b)
    ensures IsSameOrDescendant(Render(a), Render(b)) <==> Under(a, b)
  {
    RootOnly(a);
    RootOnly(b);
    if Render(a) == Render(b) {
      RenderInjective(a, b);
    } else if b == [] {
      RenderRoundTrip(a);
    } else {
      StrictlyBelow(a, b);
    }
  }

  lemma LuaOverlapMeansComparable(a: seq<string>, b: seq<string>)
    requires ValidNames(a) && ValidNames(b)
    ensures LuaOverlap(Render(a), Render(b)) <==> Under(a, b) || Under(b, a)
  {
    RootOnly(a);
    RootOnly(b);
    LuaSubIsPrefix(Render(a), Render(b));
    LuaSubIsPrefix(Render(b), Render(a));
    if a != [] && b != [] {
      StrictlyBelow(a, b);
      StrictlyBelow(b, a);
      if Render(a) == Render(b) { RenderInjective(a, b); }
    }
  }

  lemma ComparableMeansMeeting(a: seq<string>, b: seq<string>)
    requires ValidNames(a) && ValidNames(b)
    ensures SubtreesMeet(a, b) <==> Under(a, b) || Under(b, a)
  {
    if Under(a, b) { assert Under(a, a); }
    if Under(b, a) { assert Under(b, b); }
  }

  /** For every pair of absolute paths, cleaned as the server cleans them: the Lua test, the Go
      test, "one list of names is a prefix of the other" and "some directory lies under both"
      all agree. */
  lemma OverlapIsMeetingSubtrees(p: string, q: string)
    requires Rooted(p) && Rooted(q)
    ensures LuaOverlap(Clean(p), Clean(q)) <==> PathsOverlap(p, q)
    ensures LuaOverlap(Clean(p), Clean(q)) <==> Under(Names(p), Names(q)) || Under(Names(q), Names(p))
    ensures LuaOverlap(Clean(p), Clean(q)) <==> SubtreesMeet(Names(p), Names(q))
  {
    CleanIsRendered(p);
    CleanIsRendered(q);
    var a, b := Names(p), Names(q);
    DescendantMeansUnder(a, b);
    DescendantMeansUnder(b, a);
    LuaOverlapMeansComparable(a, b);
    ComparableMeansMeeting(a, b);
  }

  lemma OverlapSymmetric(a: string, b: string)
    ensures LuaOverlap(a, b) == LuaOverlap(b, a)
  {}

  /** Siblings whose names share a prefix do not overlap; the root overlaps everything. */
  lemma SiblingsAndRoot(names: seq<string>, n: string, m: string)
    requires ValidNames(names) && ValidName(n) && ValidName(m) && n != m
    ensures !LuaOverlap(Render(names + [n]), Render(names + [m]))
    ensures LuaOverlap(Render([]), Render(names + [n]))
  {
    LuaOverlapMeansComparable(names + [n], names + [m]);
    assert (names + [n])[|names|] == n && (names + [m])[|names|] == m;
  }
}
