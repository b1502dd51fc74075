/** What a path means, and the normal form of paths. */
module Paths {
  import opened Wrappers

  const MAX_COMPONENTS := 2048

  function IsSeparator(c: char): bool { c == '/' }

  // ----- Components -----------------------------------------------------------------------------------------

  /** How many characters come before the first separator. */
  function Run(s: string): (n: nat)
    ensures n <= |s|
    ensures forall i :: 0 <= i < n ==> !IsSeparator(s[i])
    ensures n < |s| ==> IsSeparator(s[n])
  {
    if s == "" || IsSeparator(s[0]) then 0 else 1 + Run(s[1..])
  }

  /** The parts of a path between its separators, without the empty ones. */
  function Split(s: string): seq<string>
    decreases |s|
  {
    if s == "" then []
    else if IsSeparator(s[0]) then Split(s[1..])
    else [s[..Run(s)]] + Split(s[Run(s)..])
  }

  predicate Clean(name: string) {
    name != "" && forall i :: 0 <= i < |name| ==> !IsSeparator(name[i])
  }

  lemma {:induction false} RunIs(s: string, n: nat)
    requires n <= |s| && (forall i :: 0 <= i < n ==> !IsSeparator(s[i])) && (n < |s| ==> IsSeparator(s[n]))
    ensures Run(s) == n
  {
  }

  lemma {:induction false} SplitFirst(name: string, rest: string)
    requires Clean(name) && (rest != "" ==> IsSeparator(rest[0]))
    ensures Split(name + rest) == [name] + Split(rest)
  {
    var s := name + rest;
    RunIs(s, |name|);
    assert s[..|name|] == name && s[|name|..] == rest;
  }

  // ----- Meaning --------------------------------------------------------------------------------------------

  /** Where a path leads: so many directories up, and then down through the names. */
  datatype Route = Route(ups: nat, names: seq<string>)

  /** A route and one component more; none if there would be too many names. */
  function Step(r: Route, c: string): Option<Route> {
    if c == "." then Some(r)
    else if c == ".." then Some(if r.names != [] then r.(names := r.names[..|r.names| - 1]) else r.(ups := r.ups + 1))
    else if |r.names| >= MAX_COMPONENTS then None
    else Some(r.(names := r.names + [c]))
  }

  /** The route after the components, one by one. */
  function Walk(r: Route, components: seq<string>): Option<Route>
    decreases |components|
  {
    if components == [] then Some(r)
    else
      match Step(r, components[0])
      case None => None
      case Some(r') => Walk(r', components[1..])
  }

  function RouteOf(path: string): Option<Route> {
    Walk(Route(0, []), Split(path))
  }

  predicate IsAbsolute(path: string) {
    path != "" && IsSeparator(path[0])
  }

  predicate StartsWithDot(path: string) {
    |path| >= 2 && path[0] == '.' && IsSeparator(path[1])
  }

  /** What a path means: from the root or from here; nothing is above the root. */
  datatype Meaning = Meaning(absolute: bool, ups: nat, names: seq<string>)

  function MeaningOf(path: string): Option<Meaning> {
    match RouteOf(path)
    case None => None
    case Some(r) => Some(Meaning(IsAbsolute(path), if IsAbsolute(path) then 0 else r.ups, r.names))
  }

  datatype PathType = Absolute | Relative | Simple

  function TypeOf(path: string): PathType {
    if IsAbsolute(path) then Absolute
    else if StartsWithDot(path) || (|path| >= 3 && path[0] == '.' && path[1] == '.' && IsSeparator(path[2])) then
        Relative
    else Simple
  }

  // ----- The normal form ------------------------------------------------------------------------------------

  function Join(components: seq<string>): string {
    if components == [] then ""
    else if |components| == 1 then components[0]
    else components[0] + "/" + Join(components[1..])
  }

  function Doubles(n: nat): (s: seq<string>)
    ensures |s| == n && forall i :: 0 <= i < n ==> s[i] == ".."
  {
    if n == 0 then [] else [".."] + Doubles(n - 1)
  }

  /** The components of the normal form. */
  function NormalComponents(absolute: bool, dot: bool, r: Route): seq<string> {
    if absolute then r.names
    else if r.ups > 0 then Doubles(r.ups) + r.names
    else if dot || r.names == [] then ["."] + r.names
    else r.names
  }

  function Render(absolute: bool, dot: bool, r: Route): string {
    (if absolute then "/" else "") + Join(NormalComponents(absolute, dot, r))
  }

  /** The normal form of a path; none if it has too many components. */
  function Normal(path: string): Option<string> {
    match RouteOf(path)
    case None => None
    case Some(r) => Some(Render(IsAbsolute(path), StartsWithDot(path), r))
  }

  // ----- Properties -----------------------------------------------------------------------------------------

  predicate Name(c: string) {
    Clean(c) && c != "." && c != ".."
  }

  predicate Names(cs: seq<string>) {
    |cs| <= MAX_COMPONENTS && forall i :: 0 <= i < |cs| ==> Name(cs[i])
  }

  predicate AllClean(cs: seq<string>) {
    forall i :: 0 <= i < |cs| ==> Clean(cs[i])
  }

  lemma {:induction false} SplitClean(s: string)
    ensures AllClean(Split(s))
    decreases |s|
  {
    if s != "" {
      if IsSeparator(s[0]) {
        SplitClean(s[1..]);
      } else {
        SplitClean(s[Run(s)..]);
      }
    }
  }

  lemma {:induction false} WalkNames(r: Route, cs: seq<string>)
    requires AllClean(cs) && Names(r.names)
    ensures Walk(r, cs).Some? ==> Names(Walk(r, cs).value.names)
    decreases |cs|
  {
    if cs != [] {
      var r' := Step(r, cs[0]);
      if r'.Some? {
        WalkNames(r'.value, cs[1..]);
      }
    }
  }

  /** Splitting undoes joining. */
  lemma {:induction false} SplitJoin(cs: seq<string>)
    requires AllClean(cs)
    ensures Split(Join(cs)) == cs
    decreases |cs|
  {
    if |cs| == 1 {
      SplitFirst(cs[0], "");
      assert cs[0] + "" == cs[0];
    } else if cs != [] {
      SplitJoin(cs[1..]);
      var rest := "/" + Join(cs[1..]);
      assert rest[1..] == Join(cs[1..]);
      SplitFirst(cs[0], rest);
      assert cs[0] + "/" + Join(cs[1..]) == cs[0] + rest;
    }
  }

  lemma {:induction false} WalkDoubles(r: Route, n: nat, cs: seq<string>)
    requires r.names == []
    ensures Walk(r, Doubles(n) + cs) == Walk(r.(ups := r.ups + n), cs)
    decreases n
  {
    if n > 0 {
      assert (Doubles(n) + cs)[1..] == Doubles(n - 1) + cs;
      WalkDoubles(r.(ups := r.ups + 1), n - 1, cs);
    } else {
      assert Doubles(0) + cs == cs;
    }
  }

  lemma {:induction false} WalkDown(r: Route, cs: seq<string>)
    requires Names(r.names + cs)
    ensures Walk(r, cs) == Some(r.(names := r.names + cs))
    decreases |cs|
  {
    if cs != [] {
      assert Name((r.names + cs)[|r.names|]);
      assert r.names + [cs[0]] + cs[1..] == r.names + cs;
      WalkDown(r.(names := r.names + [cs[0]]), cs[1..]);
    } else {
      assert r.names + [] == r.names;
    }
  }

  /** The components of a normal form lead where its route leads. */
  lemma {:induction false} WalkNormal(absolute: bool, dot: bool, r: Route)
    requires Names(r.names)
    ensures AllClean(NormalComponents(absolute, dot, r))
    ensures Walk(Route(0, []), NormalComponents(absolute, dot, r)) == Some(if absolute then r.(ups := 0) else r)
  {
    var start := Route(0, []);
    assert [] + r.names == r.names;
    if !absolute && r.ups > 0 {
      WalkDoubles(start, r.ups, r.names);
      WalkDown(start.(ups := r.ups), r.names);
    } else {
      WalkDown(start, r.names);
      assert (["."] + r.names)[1..] == r.names;
    }
  }

  /** How a normal form begins. */
  lemma {:induction false} RenderStart(absolute: bool, dot: bool, r: Route)
    requires Names(r.names)
    ensures var s := Render(absolute, dot, r);
            && Split(s) == NormalComponents(absolute, dot, r)
            && IsAbsolute(s) == absolute
            && (!absolute ==>
                  && s != ""
                  && (StartsWithDot(s) <==> dot && r.ups == 0 && r.names != [])
                  && (TypeOf(s) == Relative <==>
                       if r.ups > 0 then r.ups > 1 || r.names != [] else dot && r.names != []))
  {
    hide Walk, Join, Clean, AllClean;
    var cs := NormalComponents(absolute, dot, r);
    WalkNormal(absolute, dot, r);
    SplitJoin(cs);
    var s := Render(absolute, dot, r);
    if absolute {
      assert s[1..] == Join(cs);
    } else {
      assert s == Join(cs);
      FirstComponent(dot, r);
      JoinHead(cs);
    }
  }

  /** What a text of components begins with. */
  lemma {:induction false} JoinHead(cs: seq<string>)
    requires cs != [] && AllClean(cs)
    ensures var s := Join(cs);
            && s != "" && !IsAbsolute(s) && (StartsWithDot(s) <==> cs[0] == "." && |cs| > 1)
            && (TypeOf(s) == Relative <==> (cs[0] == "." || cs[0] == "..") && |cs| > 1)
  {
    var s, c := Join(cs), cs[0];
    assert Clean(c);
    if |cs| > 1 {
      var rest := "/" + Join(cs[1..]);
      assert s == c + rest;
      assert |c| < 2 || (s[0] == c[0] && s[1] == c[1]);
      assert |c| == 1 ==> s[1] == '/' && (s[0] == '.' <==> c == ".");
      assert |c| == 2 ==> s[2] == '/' && (s[0] == s[1] == '.' <==> c == "..");
      assert |c| >= 3 ==> s[2] == c[2];
    }
  }

  lemma {:induction false} FirstComponent(dot: bool, r: Route)
    requires Names(r.names)
    ensures var cs := NormalComponents(false, dot, r);
            && cs != [] && (r.ups > 0 ==> cs[0] == ".." && |cs| == r.ups + |r.names|)
            && (r.ups == 0 && (dot || r.names == []) ==> cs[0] == "." && |cs| == 1 + |r.names|)
            && (r.ups == 0 && !dot && r.names != [] ==> cs[0] != "." && cs[0] != "..")
  {
    if r.ups > 0 {
      assert (Doubles(r.ups) + r.names)[0] == Doubles(r.ups)[0];
    } else if r.names != [] {
      assert Name(r.names[0]);
    }
  }

  lemma {:induction false} RouteNames(path: string)
    ensures RouteOf(path).Some? ==> Names(RouteOf(path).value.names)
  {
    SplitClean(path);
    WalkNames(Route(0, []), Split(path));
  }

  /** The normal form of a path means what the path means. */
  lemma {:induction false} NormalMeansSame(path: string)
    requires Normal(path).Some?
    ensures MeaningOf(Normal(path).value) == MeaningOf(path)
  {
    RouteNames(path);
    var r := RouteOf(path).value;
    RenderStart(IsAbsolute(path), StartsWithDot(path), r);
    WalkNormal(IsAbsolute(path), StartsWithDot(path), r);
  }

  /** Normal forms are their own. */
  lemma {:induction false} NormalTwice(path: string)
    requires Normal(path).Some?
    ensures Normal(Normal(path).value) == Normal(path)
  {
    RouteNames(path);
    var absolute, dot, r := IsAbsolute(path), StartsWithDot(path), RouteOf(path).value;
    RenderStart(absolute, dot, r);
    WalkNormal(absolute, dot, r);
    var r' := if absolute then r.(ups := 0) else r;
    assert NormalComponents(absolute, StartsWithDot(Render(absolute, dot, r)), r') == NormalComponents(absolute, dot,
                                                                                                       r);
  }

  /** The components of a normal form: only leading ones are "..", and only the first can be "."; an absolute path
      has neither. */
  lemma {:induction false} NormalShape(path: string)
    requires Normal(path).Some?
    ensures var s := Normal(path).value;
            var cs := Split(s);
            && s == (if IsAbsolute(path) then "/" else "") + Join(cs)
            && (forall i, j :: 0 <= i < j < |cs| && cs[j] == ".." ==> cs[i] == "..")
            && (forall i :: 0 <= i < |cs| && cs[i] == "." ==> i == 0 && !IsAbsolute(path))
            && (IsAbsolute(path) ==> ".." !in cs)
  {
    hide NormalComponents, Join, Walk;
    RouteNames(path);
    var absolute, dot, r := IsAbsolute(path), StartsWithDot(path), RouteOf(path).value;
    RenderStart(absolute, dot, r);
    NormalComponentsShape(absolute, dot, r);
  }

  lemma {:induction false} NormalComponentsShape(absolute: bool, dot: bool, r: Route)
    requires Names(r.names)
    ensures var cs := NormalComponents(absolute, dot, r);
            && (forall i, j :: 0 <= i < j < |cs| && cs[j] == ".." ==> cs[i] == "..")
            && (forall i :: 0 <= i < |cs| && cs[i] == "." ==> i == 0 && !absolute)
            && (absolute ==> ".." !in cs)
  {
    var cs := NormalComponents(absolute, dot, r);
    var k := |cs| - |r.names|;
    forall i | k <= i < |cs| ensures Name(cs[i]) {
      assert cs[i] == r.names[i - k];
    }
  }

  /** Paths with the same meaning, both beginning with a dot component or neither, have the same normal form. */
  lemma {:induction false} NormalIsCanonical(p: string, q: string)
    requires Normal(p).Some? && MeaningOf(p) == MeaningOf(q) && StartsWithDot(p) == StartsWithDot(q)
    ensures Normal(p) == Normal(q)
  {
  }

  /** Whether a path is absolute, relative or simple is kept by a relative path that leads down to a name, or up by
      more than one, and by a simple one that does not lead up, or up by one only and to no name. */
  lemma {:induction false} TypeKept(path: string)
    requires Normal(path).Some?
    ensures var s := Normal(path).value;
            TypeOf(s) == TypeOf(path) <==>
              match TypeOf(path)
              case Absolute => true
              case Relative => RouteOf(path).value.names != [] || RouteOf(path).value.ups > 1
              case Simple =>
                RouteOf(path).value.ups == 0 || (RouteOf(path).value.ups == 1 && RouteOf(path).value.names == [])
  {
    RouteNames(path);
    var absolute, dot, r := IsAbsolute(path), StartsWithDot(path), RouteOf(path).value;
    RenderStart(absolute, dot, r);
    if !absolute {
      RenderShort(dot, r);
      if TypeOf(path) == Relative && !dot {
        UpFirst(path);
      }
    }
  }

  /** What a path becomes whose components are known, and where they lead. */
  lemma {:induction false} NormalIs(path: string, cs: seq<string>, r: Route, dot: bool, normal: seq<string>)
    requires Split(path) == cs && Walk(Route(0, []), cs) == Some(r) && !IsAbsolute(path) && dot == StartsWithDot(path)
    requires normal == NormalComponents(false, dot, r)
    ensures Normal(path) == Some(Join(normal))
  {
    assert "" + Join(normal) == Join(normal);
  }

  /** A relative path that becomes a simple one, though nothing but its last character goes. */
  lemma {:induction false} DotLosesType()
    ensures Normal("./") == Some(".") && TypeOf("./") == Relative && TypeOf(".") == Simple
  {
    SplitFirst(".", "/");
    assert "." + "/" == "./" && "/"[1..] == "" && Split("/") == [];
    assert ["."] + [] == ["."] && ["."][1..] == [];
    NormalIs("./", ["."], Route(0, []), true, ["."]);
  }

  lemma {:induction false} UpLosesType()
    ensures Normal("../") == Some("..") && TypeOf("../") == Relative && TypeOf("..") == Simple
  {
    SplitFirst("..", "/");
    assert ".." + "/" == "../" && "/"[1..] == "" && Split("/") == [];
    assert [".."] + [] == [".."] && [".."][1..] == [];
    assert Doubles(0) == [] && Doubles(1) == [".."] + Doubles(0) == [".."];
    NormalIs("../", [".."], Route(1, []), false, [".."]);
  }

  /** A simple path that becomes a relative one. */
  lemma {:induction false} SimpleGoesUp()
    ensures Normal("a/../../..") == Some("../..") && TypeOf("a/../../..") == Simple && TypeOf("../..") == Relative
  {
    hide Walk, Split, Run;
    SplitFour();
    WalkFour();
    assert Doubles(0) == [] && Doubles(1) == [".."] + Doubles(0) == [".."]
           && Doubles(2) == [".."] + Doubles(1) == ["..", ".."];
    assert ["..", ".."] + [] == ["..", ".."] && ["..", ".."][1..] == [".."];
    NormalIs("a/../../..", ["a", "..", "..", ".."], Route(2, []), false, ["..", ".."]);
    assert Join(["..", ".."]) == ".." + "/" + ".." == "../..";
  }

  lemma {:induction false} SplitFour()
    ensures Split("a/../../..") == ["a", "..", "..", ".."]
  {
    hide Walk, Join, Doubles, Split, Run, Clean;
    CleanParts();
    SplitFirst("a", "/../../..");
    SplitSlash("../../..");
    SplitFirst("..", "/../..");
    SplitSlash("../..");
    SplitFirst("..", "/..");
    SplitSlash("..");
    SplitFirst("..", "");
    assert "a" + "/../../.." == "a/../../.." && ".." + "/../.." == "../../.." && ".." + "/.." == "../.."
           && ".." + "" == "..";
    assert "/" + "../../.." == "/../../.." && "/" + "../.." == "/../.." && "/" + ".." == "/..";
  }

  lemma {:induction false} CleanParts()
    ensures Clean("a") && Clean("..") && Split("") == []
  {
  }

  lemma {:induction false} SplitSlash(rest: string)
    ensures Split("/" + rest) == Split(rest)
  {
    assert ("/" + rest)[1..] == rest;
  }

  lemma {:induction false} WalkFour()
    ensures Walk(Route(0, []), ["a", "..", "..", ".."]) == Some(Route(2, []))
  {
    var r: Route := Route(0, []);
    assert ["a", "..", "..", ".."][1..] == ["..", "..", ".."];
    assert ["..", "..", ".."][1..] == ["..", ".."];
    assert ["..", ".."][1..] == [".."];
    assert [".."][1..] == [];
    assert r.names + ["a"] == ["a"] && ["a"][..0] == [];
  }

  /** When a relative normal form is "." or "..". */
  lemma {:induction false} RenderShort(dot: bool, r: Route)
    requires Names(r.names)
    ensures Render(false, dot, r) == "." <==> r.ups == 0 && r.names == []
    ensures Render(false, dot, r) == ".." <==> r.ups == 1 && r.names == []
  {
    hide NormalComponents, Names, Clean;
    RenderStart(false, dot, r);
    DotsAlone();
    ShortComponents(dot, r);
    var cs := NormalComponents(false, dot, r);
    if |cs| == 1 {
      assert Render(false, dot, r) == "" + cs[0] == cs[0];
    }
  }

  lemma {:induction false} DotsAlone()
    ensures Split(".") == ["."] && Split("..") == [".."]
  {
    SplitFirst(".", "");
    SplitFirst("..", "");
    assert "." + "" == "." && ".." + "" == "..";
  }

  lemma {:induction false} ShortComponents(dot: bool, r: Route)
    requires Names(r.names)
    ensures var cs := NormalComponents(false, dot, r);
            (cs == ["."] <==> r.ups == 0 && r.names == []) && (cs == [".."] <==> r.ups == 1 && r.names == [])
  {
    hide Clean;
    var cs := NormalComponents(false, dot, r);
    FirstComponent(dot, r);
    if r.names != [] {
      assert cs[|cs| - 1] == r.names[|r.names| - 1] && Name(cs[|cs| - 1]);
    }
  }

  /** A path that begins with ".." leads up. */
  lemma {:induction false} UpFirst(path: string)
    requires |path| >= 3 && path[0] == '.' && path[1] == '.' && IsSeparator(path[2]) && RouteOf(path).Some?
    ensures RouteOf(path).value.ups > 0
  {
    SplitFirst("..", path[2..]);
    assert ".." + path[2..] == path;
    assert Split(path)[1..] == Split(path[2..]);
    UpsGrow(Route(1, []), Split(path[2..]));
  }

  lemma {:induction false} UpsGrow(r: Route, cs: seq<string>)
    ensures Walk(r, cs).Some? ==> Walk(r, cs).value.ups >= r.ups
    decreases |cs|
  {
    if cs != [] {
      var r' := Step(r, cs[0]);
      if r'.Some? {
        UpsGrow(r'.value, cs[1..]);
      }
    }
  }

  // ----- The components, character by character ---------------------------------------------------------------

  /** The part of a path that lies ahead. */
  function Ahead(r: Route, path: string, start: nat): Option<Route>
    requires start <= |path|
  {
    Walk(r, Split(path[start..]))
  }

  lemma {:induction false} PastComponent(r: Route, path: string, start: nat, end: nat)
    requires start < end <= |path| && (forall i :: start <= i < end ==> !IsSeparator(path[i]))
    requires end < |path| ==> IsSeparator(path[end])
    ensures Ahead(r, path, start) == match Step(r,
        path[start..end]) { case None => None case Some(r') => Ahead(r', path, end) }
  {
    var s := path[start..];
    RunIs(s, end - start);
    assert s[..end - start] == path[start..end] && s[end - start..] == path[end..];
    assert Split(s) == [path[start..end]] + Split(path[end..]);
  }

  lemma {:induction false} AtStart(path: string)
    ensures Ahead(Route(0, []), path, 0) == RouteOf(path)
  {
    assert path[0..] == path;
  }

  lemma {:induction false} AtEnd(r: Route, path: string)
    ensures Ahead(r, path, |path|) == Some(r)
  {
    assert path[|path|..] == "";
  }

  lemma {:induction false} PastSeparator(r: Route, path: string, start: nat)
    requires start < |path| && IsSeparator(path[start])
    ensures Ahead(r, path, start) == Ahead(r, path, start + 1)
  {
    assert path[start..][1..] == path[start + 1..];
  }

  /** The steps up and the names of a path; false if there are ever too many. */
  method Components(path: string) returns (ok: bool, leadingDoubles: nat, components: seq<string>)
    ensures RouteOf(path) == if ok then Some(Route(leadingDoubles, components)) else None
  {
    hide Split, Walk;
    leadingDoubles, components := 0, [];
    AtStart(path);
    var start, end := 0, 0;
    while true
      invariant start <= end <= |path| && forall i :: start <= i < end ==> !IsSeparator(path[i])
      invariant Ahead(Route(leadingDoubles, components), path, start) == RouteOf(path)
      decreases |path| - end
    {
      if end == |path| || IsSeparator(path[end]) {
        if start != end {
          var part := path[start..end];
          ghost var r := Route(leadingDoubles, components);
          PastComponent(r, path, start, end);
          if part == "." {
          } else if part == ".." {
            if |components| > 0 {
              components := components[..|components| - 1];
            } else {
              leadingDoubles := leadingDoubles + 1;
            }
          } else {
            if |components| >= MAX_COMPONENTS {
              return false, leadingDoubles, components;
            }
            components := components + [part];
          }
        }
        while end < |path| && IsSeparator(path[end])
          invariant end <= |path|
          invariant Ahead(Route(leadingDoubles, components), path, end) == RouteOf(path)
        {
          PastSeparator(Route(leadingDoubles, components), path, end);
          end := end + 1;
        }
        start := end;
        if end == |path| {
          AtEnd(Route(leadingDoubles, components), path);
          return true, leadingDoubles, components;
        }
      }
      end := end + 1;
    }
  }

  lemma {:induction false} JoinMore(cs: seq<string>, c: string)
    ensures Join(cs + [c]) == Join(cs) + (if cs == [] then "" else "/") + c
  {
    if |cs| == 0 {
      assert cs + [c] == [c];
    } else {
      assert (cs + [c])[1..] == cs[1..] + [c];
      JoinMore(cs[1..], c);
    }
  }

  lemma {:induction false} MoreDoubles(n: nat)
    ensures Doubles(n + 1) == Doubles(n) + [".."]
    ensures Join(Doubles(n + 1)) == Join(Doubles(n)) + (if n == 0 then "" else "/") + ".."
  {
    JoinMore(Doubles(n), "..");
  }

  // ----- The buffer -----------------------------------------------------------------------------------------

  /** A path in a buffer that grows, with a character to spare for the end mark. */
  class Path {
    var chars: array<char>
    var length: nat

    ghost predicate Valid()
      reads this, chars
    {
      length < chars.Length && chars[length] == '\0'
    }

    ghost function Text(): string
      requires length <= chars.Length
      reads this, chars
    {
      chars[..length]
    }

    constructor ()
      ensures Valid() && Text() == "" && fresh(chars)
    {
      chars := new char[1](_ => '\0');
      length := 0;
    }

    method EnsureCapacity(capacity: nat)
      requires Valid()
      modifies this
      ensures Valid() && chars.Length > capacity && length == old(length) && Text() == old(Text())
      ensures chars == old(chars) || fresh(chars)
    {
      if chars.Length >= capacity + 1 {
        return;
      }
      var newCapacity := 16;
      while newCapacity < capacity + 1
        invariant newCapacity > 0
        decreases capacity + 1 - newCapacity
      {
        newCapacity := newCapacity * 2;
      }
      var grown := new char[newCapacity](_ => '\0');
      forall i | 0 <= i <= length {
        grown[i] := chars[i];
      }
      chars := grown;
    }

    method Append(text: string)
      requires Valid()
      modifies this, chars
      ensures Valid() && Text() == old(Text()) + text && (chars == old(chars) || fresh(chars))
    {
      EnsureCapacity(length + |text|);
      ghost var was := chars[..length];
      var end := length + |text|;
      forall i | 0 <= i < |text| {
        chars[length + i] := text[i];
      }
      chars[end] := '\0';
      assert chars[..end] == was + text by {
        assert chars[..length] == was;
        assert forall i :: 0 <= i < |text| ==> chars[length..end][i] == text[i];
        assert chars[length..end] == text;
        assert chars[..end] == chars[..length] + chars[length..end];
      }
      length := end;
    }

    method AppendComponent(c: string, needsSeparator: bool)
      requires Valid()
      modifies this, chars
      ensures Valid() && Text() == old(Text()) + (if needsSeparator then "/" else "") + c
              && (chars == old(chars) || fresh(chars))
    {
      if needsSeparator {
        Append("/");
      }
      Append(c);
    }

    /** More components, with separators between. */
    method AppendAll(components: seq<string>, separated: bool, ghost prefix: string, ghost done: seq<string>)
      requires Valid() && Text() == prefix + Join(done) && separated == (done != [])
      modifies this, chars
      ensures Valid() && Text() == prefix + Join(done + components) && (chars == old(chars) || fresh(chars))
    {
      hide Join;
      var needsSeparator := separated;
      assert done + components[..0] == done;
      for i := 0 to |components|
        invariant Valid() && (chars == old(chars) || fresh(chars))
        invariant needsSeparator == (done + components[..i] != [])
        invariant Text() == prefix + Join(done + components[..i])
      {
        AppendComponent(components[i], needsSeparator);
        needsSeparator := true;
        JoinMore(done + components[..i], components[i]);
        assert done + components[..i + 1] == done + components[..i] + [components[i]];
      }
      assert components[..|components|] == components;
    }

    /** The path is replaced by its normal form; false if it has too many components. */
    method Normalize() returns (ok: bool)
      requires Valid()
      modifies this
      ensures Valid() && (ok <==> Normal(old(Text())).Some?)
      ensures ok ==> Text() == Normal(old(Text())).value
      ensures !ok ==> Text() == old(Text())
    {
      var path := chars[..length];
      var leadingDoubles, components;
      ok, leadingDoubles, components := Components(path);
      if !ok {
        return;
      }
      RouteNames(path);
      var result := Write(path, leadingDoubles, components);
      chars, length := result.chars, result.length;
    }
  }

  /** What the normal form of a path begins with: its root, the steps up, or the dot; `done` are the components. */
  method WriteStart(path: string, leadingDoubles: nat) returns (result: Path, needsSeparator: bool,
                    ghost done: seq<string>)
    ensures fresh(result) && fresh(result.chars) && result.Valid()
    ensures done == if IsAbsolute(path) then [] else if leadingDoubles > 0 then Doubles(leadingDoubles)
                    else if StartsWithDot(path) then ["."] else []
    ensures result.Text() == (if IsAbsolute(path) then "/" else "") + Join(done)
    ensures needsSeparator == (done != [])
  {
    needsSeparator, done := false, [];
    result := new Path();
    if IsAbsolute(path) {
      result.Append(path[..1]);
    } else if leadingDoubles > 0 {
      for i := 0 to leadingDoubles
        invariant result.Valid() && fresh(result) && fresh(result.chars)
        invariant needsSeparator == (i > 0) && result.Text() == Join(Doubles(i))
      {
        result.AppendComponent("..", needsSeparator);
        needsSeparator := true;
        MoreDoubles(i);
      }
      done := Doubles(leadingDoubles);
    } else if StartsWithDot(path) {
      result.Append(".");
      needsSeparator := true;
      done := ["."];
    }
  }

  /** The normal form of a path with these steps up and names. */
  method Write(path: string, leadingDoubles: nat, components: seq<string>) returns (result: Path)
    requires Names(components)
    ensures fresh(result) && fresh(result.chars) && result.Valid()
    ensures result.Text() == Render(IsAbsolute(path), StartsWithDot(path), Route(leadingDoubles, components))
  {
    hide Join, Render, Names, Doubles, StartsWithDot, IsAbsolute;
    var needsSeparator;
    ghost var done;
    result, needsSeparator, done := WriteStart(path, leadingDoubles);
    ghost var prefix := if IsAbsolute(path) then "/" else "";
    result.AppendAll(components, needsSeparator, prefix, done);
    Written(IsAbsolute(path), StartsWithDot(path), Route(leadingDoubles, components), done);
    if result.length == 0 {
      result.Append(".");
    }
  }

  /** What has been written is the normal form, unless it is nothing. */
  lemma {:induction false} Written(absolute: bool, dot: bool, r: Route, done: seq<string>)
    requires Names(r.names)
    requires done == if absolute then [] else if r.ups > 0 then Doubles(r.ups) else if dot then ["."] else []
    ensures var s := (if absolute then "/" else "") + Join(done + r.names);
            Render(absolute, dot, r) == if s == "" then "." else s
  {
    var cs := done + r.names;
    JoinEmpty(cs);
    assert [] + r.names == r.names && ["."] + [] == ["."];
    assert r.ups > 0 && !absolute ==> cs[0] == "..";
    assert r.names != [] ==> Name(r.names[0]);
    assert "" + Join(cs) == Join(cs);
  }

  /** Only nothing joins to nothing. */
  lemma {:induction false} JoinEmpty(cs: seq<string>)
    ensures Join([]) == "" && Join(["."]) == "."
    ensures cs != [] && cs[0] != "" ==> Join(cs) != ""
  {
  }
}
