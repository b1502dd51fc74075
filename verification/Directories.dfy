/** What a path leads to from a directory, one component after the other, and that normalizing changes nothing of it. */
module Directories {
  import opened Wrappers
  import opened Paths

  /** A directory, as the names that lead to it from the root. */
  type Directory = seq<string>

  /** The parent of a directory; the root is its own. */
  function Parent(d: Directory): Directory {
    if d == [] then [] else d[..|d| - 1]
  }

  /** Where components lead, from the first on: "." nowhere, ".." to the parent, and a name down. */
  function Go(d: Directory, components: seq<string>): Directory
    decreases |components|
  {
    if components == [] then d
    else
      var c := components[0];
      Go(if c == "." then d else if c == ".." then Parent(d) else d + [c], components[1..])
  }

  /** Where a path leads from a directory. */
  function Resolve(d: Directory, path: string): Directory {
    Go(if path != "" && path[0] == '/' then [] else d, Split(path))
  }

  /** A directory `n` levels up, or the root. */
  function Above(d: Directory, n: nat): Directory {
    if n <= |d| then d[..|d| - n] else []
  }

  /** A route, followed from a directory. */
  function Follow(d: Directory, r: Route): Directory {
    Above(d, r.ups) + r.names
  }

  lemma {:induction false} FollowStep(d: Directory, r: Route, c: string)
    requires Step(r, c).Some?
    ensures Follow(d, Step(r, c).value) ==
              if c == "." then Follow(d, r) else if c == ".." then Parent(Follow(d, r)) else Follow(d, r) + [c]
  {
    if c == ".." && r.names != [] {
      assert (Above(d, r.ups) + r.names)[..|Above(d, r.ups)| + |r.names| - 1]
          == Above(d, r.ups) + r.names[..|r.names| - 1];
    } else if c == ".." {
      assert Above(d, r.ups) + [] == Above(d, r.ups);
    } else if c != "." {
      assert Above(d, r.ups) + (r.names + [c]) == Above(d, r.ups) + r.names + [c];
    }
  }

  /** Components lead where the route they add up to leads. */
  lemma {:induction false} FollowWalk(d: Directory, r: Route, cs: seq<string>)
    requires Walk(r, cs).Some?
    ensures Follow(d, Walk(r, cs).value) == Go(Follow(d, r), cs)
    decreases |cs|
  {
    if cs != [] {
      FollowStep(d, r, cs[0]);
      FollowWalk(d, Step(r, cs[0]).value, cs[1..]);
    }
  }

  /** A path and its normal form lead to the same directory, from wherever they are followed. */
  lemma {:induction false} NormalLeadsSame(d: Directory, path: string)
    requires Normal(path).Some?
    ensures Resolve(d, Normal(path).value) == Resolve(d, path)
  {
    hide Render, NormalComponents, Split, Walk, Go, Join;
    RouteNames(path);
    var absolute, dot, r := IsAbsolute(path), StartsWithDot(path), RouteOf(path).value;
    RenderStart(absolute, dot, r);
    WalkNormal(absolute, dot, r);
    var from: Directory, start := if absolute then [] else d, Route(0, []);
    assert Follow(from, start) == from by { assert from[..|from|] + [] == from; }
    FollowWalk(from, start, Split(path));
    FollowWalk(from, start, NormalComponents(absolute, dot, r));
    assert absolute ==> Follow([], r) == Follow([], r.(ups := 0));
    SameStart(path, Normal(path).value);
  }

  lemma {:induction false} SameStart(p: string, q: string)
    ensures IsAbsolute(p) <==> p != "" && p[0] == '/'
    ensures IsAbsolute(q) <==> q != "" && q[0] == '/'
  {
  }

  // ----- Down and up again ----------------------------------------------------------------------------------

  lemma {:induction false} SplitBoth(p: string, s: string)
    requires p != "" && IsSeparator(p[|p| - 1])
    ensures Split(p + s) == Split(p) + Split(s)
    decreases |p|
  {
    hide Split, Run, Clean;
    if IsSeparator(p[0]) {
      var rest := p[1..];
      assert p == "/" + rest && p + s == "/" + (rest + s);
      SplitSlash(rest);
      SplitSlash(rest + s);
      if |p| > 1 {
        SplitBoth(rest, s);
      } else {
        CleanParts();
        assert rest + s == s;
      }
    } else {
      var n := Run(p);
      var name, tail := p[..n], p[n..];
      FirstPart(p);
      assert p == name + tail && p + s == name + (tail + s);
      SplitFirst(name, tail);
      SplitFirst(name, tail + s);
      SplitBoth(tail, s);
    }
  }

  lemma {:induction false} FirstPart(p: string)
    requires p != "" && !IsSeparator(p[0]) && IsSeparator(p[|p| - 1])
    ensures 0 < Run(p) < |p| && Clean(p[..Run(p)]) && IsSeparator(p[Run(p)])
  {
  }

  lemma {:induction false} WalkBoth(r: Route, a: seq<string>, b: seq<string>)
    ensures Walk(r, a + b) == match Walk(r, a) case None => None case Some(r') => Walk(r', b)
    decreases |a|
  {
    if a == [] {
      assert a + b == b;
    } else {
      assert (a + b)[1..] == a[1..] + b;
      match Step(r, a[0])
      case None =>
      case Some(r') => WalkBoth(r', a[1..], b);
    }
  }

  /** Going down to a name and up again may be left out, wherever that stands after a separator. */
  lemma {:induction false} DownAndUp(p: string, name: string, rest: string)
    requires p != "" && p[|p| - 1] == '/' && Name(name) && (rest == "" || rest[0] == '/')
    requires RouteOf(p).Some? ==> |RouteOf(p).value.names| < MAX_COMPONENTS
    ensures Normal(p + (name + "/.." + rest)) == Normal(p + if rest == "" then "" else rest[1..])
  {
    hide Render, Walk, Split, Step;
    var last := if rest == "" then "" else rest[1..];
    var long, short := name + "/.." + rest, last;
    var start := Route(0, []);
    SplitBoth(p, long);
    SplitBoth(p, short);
    SplitDownUp(name, rest);
    WalkBoth(start, Split(p), Split(long));
    WalkBoth(start, Split(p), Split(short));
    match RouteOf(p)
    case None =>
    case Some(r) => WalkDownUp(r, name, Split(short));
  }

  lemma {:induction false} SplitDownUp(name: string, rest: string)
    requires Name(name) && (rest == "" || rest[0] == '/')
    ensures Split(name + "/.." + rest) == [name, ".."] + Split(if rest == "" then "" else rest[1..])
  {
    hide Split, Run;
    SplitFirst(name, "/.." + rest);
    assert name + ("/.." + rest) == name + "/.." + rest;
    SplitSlash(".." + rest);
    assert "/" + (".." + rest) == "/.." + rest;
    SplitFirst("..", rest);
    if rest != "" {
      SplitSlash(rest[1..]);
      assert "/" + rest[1..] == rest;
    }
  }

  lemma {:induction false} WalkDownUp(r: Route, name: string, more: seq<string>)
    requires Name(name) && |r.names| < MAX_COMPONENTS
    ensures Walk(r, [name, ".."] + more) == Walk(r, more)
  {
    var cs := [name, ".."] + more;
    assert cs[1..] == [".."] + more && ([".."] + more)[1..] == more;
    assert (r.names + [name])[..|r.names|] == r.names;
  }

  // ----- How many names there may be ------------------------------------------------------------------------

  /** A path down through names has a normal form exactly when there are at most 2048 of them. */
  lemma {:induction false} NamesFit(cs: seq<string>)
    requires forall i :: 0 <= i < |cs| ==> Name(cs[i])
    ensures Normal(Join(cs)).Some? <==> |cs| <= 2048
  {
    hide Split, Join, Render, Clean;
    SplitJoin(cs);
    var start := Route(0, []);
    if |cs| <= 2048 {
      assert [] + cs == cs;
      WalkDown(start, cs);
    } else {
      var first, rest := cs[..2048], cs[2048..];
      assert [] + first == first && cs == first + rest;
      WalkDown(start, first);
      WalkBoth(start, first, rest);
      assert Name(rest[0]);
    }
  }

  // ----- The text of a normal form --------------------------------------------------------------------------

  /** So many steps up. */
  function Ups(n: nat): string
    requires n > 0
  {
    if n == 1 then ".." else "../" + Ups(n - 1)
  }

  lemma {:induction false} JoinHeadTail(c: string, cs: seq<string>)
    requires cs != []
    ensures Join([c] + cs) == c + "/" + Join(cs)
  {
    assert ([c] + cs)[1..] == cs;
  }

  lemma {:induction false} JoinUps(n: nat, names: seq<string>)
    requires n > 0
    ensures Join(Doubles(n) + names) == Ups(n) + if names == [] then "" else "/" + Join(names)
  {
    var rest := Doubles(n - 1) + names;
    assert Doubles(n) + names == [".."] + rest;
    if n > 1 {
      JoinUps(n - 1, names);
      JoinHeadTail("..", rest);
      assert ".." + "/" == "../";
    } else {
      assert rest == names;
      if names != [] {
        JoinHeadTail("..", names);
        assert ".." + "/" + Join(names) == ".." + ("/" + Join(names));
      } else {
        assert [".."] + names == [".."] && ".." + "" == "..";
      }
    }
  }

  /** What a normal form looks like: after "/" an absolute path has its names only; a path that leads up begins with its
      steps up; "." stands for nothing; and of the others those have "./" before their names that had it. */
  lemma {:induction false} NormalText(path: string)
    requires Normal(path).Some?
    ensures var r := RouteOf(path).value;
            Normal(path).value ==
              if path != "" && path[0] == '/' then "/" + Join(r.names)
              else if r.ups > 0 then Ups(r.ups) + if r.names == [] then "" else "/" + Join(r.names)
              else if r.names == [] then "."
              else if |path| >= 2 && path[..2] == "./" then "./" + Join(r.names)
              else Join(r.names)
  {
    hide Join, Doubles, Ups;
    var r := RouteOf(path).value;
    SameStart(path, path);
    assert StartsWithDot(path) <==> |path| >= 2 && path[..2] == "./" by { DotStart(path); }
    if !IsAbsolute(path) {
      if r.ups > 0 {
        JoinUps(r.ups, r.names);
      } else if r.names == [] {
        assert ["."] + r.names == ["."];
        OneJoined(".");
      } else if StartsWithDot(path) {
        JoinHeadTail(".", r.names);
        assert "." + "/" == "./";
      }
      assert "" + Join(NormalComponents(false, StartsWithDot(path), r))
          == Join(NormalComponents(false, StartsWithDot(path), r));
    }
  }

  lemma {:induction false} OneJoined(c: string)
    ensures Join([c]) == c
  {
  }

  lemma {:induction false} DotStart(path: string)
    ensures StartsWithDot(path) <==> |path| >= 2 && path[..2] == "./"
  {
    if |path| >= 2 {
      assert path[..2] == [path[0], path[1]];
    }
  }
}
