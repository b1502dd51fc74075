/** What the code of a program is: the instructions with the names they read and write, the jumps, the locals and
    temporaries there are at each of them, and the functions, in the order in which they are finished. */
module Outlines {
  import opened Wrappers
  import opened FunctionSyntax
  import opened Functions

  /** An instruction. Whether a name is a local or an upvalue is left open, and so is whether a slot given up is closed.
      `Hole` and `HoleUnless` are jumps without a target. */
  datatype Mark =
    | Push(value: Value)
    | Read(name: string)
    | Write(name: string)
    | Make(fn: nat)
    | Drop
    | Goto(target: nat)
    | Unless(target: nat)
    | Hole
    | HoleUnless
    | Back(target: nat)
    | Invoke(numArgs: nat)
    | End

  /** The slots of a function: the names of its locals, and temporaries, which have none. */
  type Shape = seq<Option<string>>

  /** An instruction and the slots there are before it. */
  datatype Point = Point(mark: Mark, slots: Shape)

  /** A function, within others that have the slots `around` where it is made into a closure. */
  datatype Outline = Outline(arity: nat, around: seq<Shape>, points: seq<Point>)

  /** Instructions, and the functions finished meanwhile. */
  datatype Code = Code(points: seq<Point>, fns: seq<Outline>)

  /** A place in a program: the slots of the functions around, and the names of the locals in scope. */
  datatype Site = Site(around: seq<Shape>, names: seq<string>)

  function Plus(a: Code, b: Code): Code {
    Code(a.points + b.points, a.fns + b.fns)
  }

  function Mere(points: seq<Point>): Code {
    Code(points, [])
  }

  /** Locals with these names, and `t` temporaries. */
  function Scope(names: seq<string>, t: nat): (s: Shape)
    ensures |s| == |names| + t
  {
    seq(|names| + t, i requires 0 <= i < |names| + t => if i < |names| then Some(names[i]) else None)
  }

  function Here(mark: Mark, at: Site, t: nat): Code {
    Mere([Point(mark, Scope(at.names, t))])
  }

  /** The last `n` locals are given up. */
  function Drops(names: seq<string>, n: nat): (q: seq<Point>)
    requires n <= |names|
    ensures |q| == n
  {
    if n == 0 then [] else Drops(names, n - 1) + [Point(Drop, Scope(names[..|names| - n + 1], 0))]
  }

  function FilledMark(mark: Mark, end: nat): Mark {
    match mark
    case Hole => Goto(end)
    case HoleUnless => Unless(end)
    case _ => mark
  }

  function Filled(p: Point, end: nat): Point {
    Point(FilledMark(p.mark, end), p.slots)
  }

  /** Jumps without a target get this one. */
  function Fill(points: seq<Point>, end: nat): (q: seq<Point>)
    ensures |q| == |points|
  {
    seq(|points|, p requires 0 <= p < |points| => Filled(points[p], end))
  }

  // ----- The code of a program ------------------------------------------------------------------------------

  /** The code of an expression above `t` temporaries, when `f` functions are finished before it. */
  function OfExpr(e: Expr, f: nat, at: Site, t: nat): Code
    decreases e, 0
  {
    match e
    case Constant(v) => Here(Push(v), at, t)
    case Name(x) => Here(Read(x), at, t)
    case Assign(x, e1) => Plus(OfExpr(e1, f, at, t), Here(Write(x), at, t + 1))
    case Fn(params, body) =>
      var fns := OfFunction(params, body, f, at.around + [Scope(at.names, t)]);
      Code(Here(Make(f + |fns| - 1), at, t).points, fns)
    case CallOf(callee, args) =>
      var c := OfExpr(callee, f, at, t);
      Plus(Plus(c, OfArgs(args, |args|, f + |c.fns|, at, t + 1)), Here(Invoke(|args|), at, t + 1 + |args|))
  }

  /** The first `n` arguments. */
  function OfArgs(args: seq<Expr>, n: nat, f: nat, at: Site, t: nat): Code
    requires n <= |args|
    decreases args, n
  {
    if n == 0 then
      Mere([])
    else
      var a := OfArgs(args, n - 1, f, at, t);
      Plus(a, OfExpr(args[n - 1], f + |a.fns|, at, t + n - 1))
  }

  function Entry(params: seq<string>, around: seq<Shape>): Site {
    Site(around, [""] + params)
  }

  /** What a function does that does not return by itself. */
  function Tail(names: seq<string>): seq<Point> {
    [Point(Push(Null), Scope(names, 0)), Point(End, Scope(names, 1))]
  }

  /** A function, last, and those within it before. */
  function OfFunction(params: seq<string>, body: seq<Definition>, f: nat, around: seq<Shape>): (fns: seq<Outline>)
    ensures fns != []
    decreases body, |body| + 1
  {
    var at := Entry(params, around);
    var b := OfDefs(body, |body|, 0, f, at, 0);
    b.fns + [Outline(|params|, around, b.points + Tail(at.names + VarNames(body, |body|)))]
  }

  /** The names of the variables that the first `n` definitions declare. */
  function VarNames(body: seq<Definition>, n: nat): (names: seq<string>)
    requires n <= |body|
  {
    if n == 0 then [] else VarNames(body, n - 1) + if body[n - 1].Var? then [body[n - 1].name] else []
  }

  function With(at: Site, names: seq<string>): Site {
    at.(names := at.names + names)
  }

  /** The first `n` definitions, from instruction `pc` on, when `k` locals have been declared within the loop. */
  function OfDefs(body: seq<Definition>, n: nat, pc: nat, f: nat, at: Site, k: nat): Code
    requires n <= |body| && k <= |at.names|
    decreases body, n
  {
    if n == 0 then
      Mere([])
    else
      var a := OfDefs(body, n - 1, pc, f, at, k);
      var more := VarNames(body, n - 1);
      Plus(a, OfDef(body[n - 1], pc + |a.points|, f + |a.fns|, With(at, more), k + |more|))
  }

  function OfDef(def: Definition, pc: nat, f: nat, at: Site, k: nat): Code
    requires k <= |at.names|
    decreases def, 0
  {
    match def
    case Var(_, init) => OfExpr(init, f, at, 0)
    case Plain(stmt) => OfStmt(stmt, pc, f, at, k)
  }

  /** A statement. A break gives up the locals declared within the loop, and is left without a target until the end of
      the loop is known. */
  function OfStmt(stmt: Stmt, pc: nat, f: nat, at: Site, k: nat): Code
    requires k <= |at.names|
    decreases stmt, 0
  {
    match stmt
    case Do(e) => Plus(OfExpr(e, f, at, 0), Here(Drop, at, 1))
    case ReturnOf(e) => Plus(OfExpr(e, f, at, 0), Here(End, at, 1))
    case Break => Mere(Drops(at.names, k) + [Point(Hole, Scope(at.names[..|at.names| - k], 0))])
    case Block(parts) =>
      var more := VarNames(parts, |parts|);
      Plus(OfDefs(parts, |parts|, pc, f, at, k), Mere(Drops(at.names + more, |more|)))
    case If(cond, a) =>
      var c := OfExpr(cond, f, at, 0);
      var t := OfStmt(a, pc + |c.points| + 1, f + |c.fns|, at, k);
      Code(c.points + [Test(Unless(pc + |c.points| + 1 + |t.points|), at)] + t.points, c.fns + t.fns)
    case IfElse(cond, a, b) =>
      var c := OfExpr(cond, f, at, 0);
      var t := OfStmt(a, pc + |c.points| + 1, f + |c.fns|, at, k);
      var n := pc + |c.points| + 1 + |t.points| + 1;
      var e := OfStmt(b, n, f + |c.fns| + |t.fns|, at, k);
      Code(c.points + [Test(Unless(n), at)] + t.points + [Plainly(Goto(n + |e.points|), at)] + e.points,
           c.fns + t.fns + e.fns)
    case While(cond, a) =>
      var c := OfExpr(cond, f, at, 0);
      var t := OfStmt(a, pc + |c.points| + 1, f + |c.fns|, at, 0);
      var loop := c.points + [Test(HoleUnless, at)] + t.points + [Plainly(Back(pc), at)];
      Code(Fill(loop, pc + |loop|), c.fns + t.fns)
  }

  /** A jump that takes a condition along. */
  function Test(mark: Mark, at: Site): Point {
    Point(mark, Scope(at.names, 1))
  }

  function Plainly(mark: Mark, at: Site): Point {
    Point(mark, Scope(at.names, 0))
  }

  // ----- What is kept of code -------------------------------------------------------------------------------

  function MarkOf(i: Instr, name: string, open: bool): Mark {
    match i
    case Constant(v) => Push(v)
    case LoadLocal(_) => Read(name)
    case LoadUpvalue(_) => Read(name)
    case StoreLocal(_) => Write(name)
    case StoreUpvalue(_) => Write(name)
    case MakeClosure(f) => Make(f)
    case Pop => Drop
    case CloseUpvalue => Drop
    case Jump(t) => if open then Hole else Goto(t)
    case JumpIf(t) => if open then HoleUnless else Unless(t)
    case Loop(t) => Back(t)
    case Call(n) => Invoke(n)
    case Return => End
  }

  function ShapeOf(k: Kinds): (s: Shape)
    ensures |s| == |k|
  {
    seq(|k|, i requires 0 <= i < |k| => if k[i].Named? then Some(k[i].name) else None)
  }

  function ShapesOf(outer: seq<Kinds>): (s: seq<Shape>)
    ensures |s| == |outer|
  {
    seq(|outer|, l requires 0 <= l < |outer| => ShapeOf(outer[l]))
  }

  function PointAt(code: seq<Instr>, names: seq<string>, kinds: seq<Kinds>, pending: set<nat>, p: nat): Point
    requires p < |code|
  {
    Point(MarkOf(code[p], if p < |names| then names[p] else "", p in pending),
          if p < |kinds| then ShapeOf(kinds[p]) else [])
  }

  function Points(code: seq<Instr>, names: seq<string>, kinds: seq<Kinds>, pending: set<nat>): (q: seq<Point>)
    ensures |q| == |code|
  {
    seq(|code|, p requires 0 <= p < |code| => PointAt(code, names, kinds, pending, p))
  }

  function OutlineOf(f: Function): Outline {
    Outline(f.arity, ShapesOf(f.outer), Points(f.code, f.names, f.kinds, {}))
  }

  function OutlinesOf(fns: seq<Function>): (q: seq<Outline>)
    ensures |q| == |fns|
  {
    seq(|fns|, i requires 0 <= i < |fns| => OutlineOf(fns[i]))
  }

  lemma {:induction false} PointsOneMore(code: seq<Instr>, names: seq<string>, kinds: seq<Kinds>, pending: set<nat>,
                                         i: Instr, name: string, k: Kinds, open: bool)
    requires |names| == |code| == |kinds| && forall p :: p in pending ==> p < |code|
    ensures Points(code + [i], names + [name], kinds + [k], if open then pending + {|code|} else pending)
         == Points(code, names, kinds, pending) + [Point(MarkOf(i, name, open), ShapeOf(k))]
  {
    var now := if open then pending + {|code|} else pending;
    forall p | 0 <= p <= |code|
      ensures PointAt(code + [i], names + [name], kinds + [k], now, p)
           == (Points(code, names, kinds, pending) + [Point(MarkOf(i, name, open), ShapeOf(k))])[p]
    {
      if p < |code| {
        assert Points(code, names, kinds, pending)[p] == PointAt(code, names, kinds, pending, p);
      }
    }
  }

  lemma {:induction false} PointsPatched(code: seq<Instr>, names: seq<string>, kinds: seq<Kinds>, pending: set<nat>,
                                         p: nat, i: Instr)
    requires p < |code| && p in pending
    requires i == if code[p].JumpIf? then JumpIf(|code|) else Jump(|code|)
    requires code[p].Jump? || code[p].JumpIf?
    ensures Points(code[p := i], names, kinds, pending - {p})
         == Points(code, names, kinds, pending)[p := Filled(Points(code, names, kinds, pending)[p], |code|)]
  {
  }

  // ----- Jumps ----------------------------------------------------------------------------------------------

  lemma {:induction false} Three<T>(a: seq<T>, b: seq<T>, c: seq<T>)
    ensures a + b + c == a + (b + c)
  {
  }

  lemma {:induction false} Four<T>(a: seq<T>, b: seq<T>, c: seq<T>, d: seq<T>)
    ensures a + b + c + d == a + (b + c + d)
  {
  }

  lemma {:induction false} Retarget(q: seq<Point>, c: seq<Point>, x: Point, y: Point, t: seq<Point>, p: nat)
    requires p == |q| + |c|
    ensures (q + (c + [x]) + t)[p] == x && (q + (c + [x]) + t)[p := y] == q + (c + [y] + t)
  {
  }

  /** The jump at `p` gets the end as its target. */
  lemma {:induction false} OneJump(q: seq<Point>, c: seq<Point>, x: Point, t: seq<Point>, p: nat)
    requires p == |q| + |c|
    ensures var was := q + (c + [x]) + t;
            was[p := Filled(was[p], |was|)] == q + (c + [Filled(x, |was|)] + t)
  {
    Retarget(q, c, x, Filled(x, |q + (c + [x]) + t|), t, p);
  }

  lemma {:induction false} IfCode(stmt: Stmt, pc: nat, f: nat, at: Site, k: nat)
    requires stmt.If? && k <= |at.names|
    ensures var c := OfExpr(stmt.cond, f, at, 0);
            var t := OfStmt(stmt.thenBranch, pc + |c.points| + 1, f + |c.fns|, at, k);
            OfStmt(stmt, pc, f, at, k)
              == Code(c.points + [Test(Unless(pc + |c.points| + 1 + |t.points|), at)] + t.points, c.fns + t.fns)
  {
  }

  lemma {:induction false} IfElseCode(stmt: Stmt, pc: nat, f: nat, at: Site, k: nat)
    requires stmt.IfElse? && k <= |at.names|
    ensures var c := OfExpr(stmt.cond, f, at, 0);
            var t := OfStmt(stmt.thenBranch, pc + |c.points| + 1, f + |c.fns|, at, k);
            var n := pc + |c.points| + 1 + |t.points| + 1;
            var e := OfStmt(stmt.elseBranch, n, f + |c.fns| + |t.fns|, at, k);
            OfStmt(stmt, pc, f, at, k)
              == Code(c.points + [Test(Unless(n), at)] + t.points + [Plainly(Goto(n + |e.points|), at)] + e.points,
                      c.fns + t.fns + e.fns)
  {
  }

  lemma {:induction false} WhileCode(stmt: Stmt, pc: nat, f: nat, at: Site, k: nat)
    requires stmt.While? && k <= |at.names|
    ensures var c := OfExpr(stmt.cond, f, at, 0);
            var t := OfStmt(stmt.body, pc + |c.points| + 1, f + |c.fns|, at, 0);
            var loop := c.points + [Test(HoleUnless, at)] + t.points + [Plainly(Back(pc), at)];
            OfStmt(stmt, pc, f, at, k) == Code(Fill(loop, pc + |loop|), c.fns + t.fns)
  {
  }

  predicate NotOpen(p: Point) {
    p.mark != Hole && p.mark != HoleUnless
  }

  /** The jumps at `breaks` have got the end of the code as their target. */
  ghost predicate FilledAt(was: seq<Point>, now: seq<Point>, breaks: seq<nat>) {
    |now| == |was| && forall p :: 0 <= p < |was| ==> now[p] == if p in breaks then Filled(was[p], |was|) else was[p]
  }

  lemma {:induction false} NoneFilled(was: seq<Point>)
    ensures FilledAt(was, was, [])
  {
  }

  lemma {:induction false} OneFilled(was: seq<Point>, now: seq<Point>, now': seq<Point>, breaks: seq<nat>, i: nat)
    requires i < |breaks| && FilledAt(was, now, breaks[..i]) && breaks[i] < |was|
    requires forall j, k :: 0 <= j < k < |breaks| ==> breaks[j] < breaks[k]
    requires now' == now[breaks[i] := Filled(now[breaks[i]], |now|)]
    ensures FilledAt(was, now', breaks[..i + 1])
  {
    assert breaks[..i + 1] == breaks[..i] + [breaks[i]];
    assert breaks[i] !in breaks[..i];
  }

  lemma {:induction false} FilledOnce(p: Point, end: nat)
    ensures Filled(Filled(p, end), end) == Filled(p, end)
    ensures NotOpen(p) ==> Filled(p, end) == p
    ensures NotOpen(Filled(p, end))
  {
  }

  lemma {:induction false} FilledHere(q: seq<Point>, loop: seq<Point>, now: seq<Point>, last: seq<Point>, p: nat,
                                      breaks: seq<nat>, i: nat)
    requires i < |q| + |loop| && |q| <= p < |q| + |loop| && forall b :: b in breaks ==> b >= |q|
    requires now == (q + loop)[p := Filled((q + loop)[p], |q| + |loop|)] && FilledAt(now, last, breaks)
    requires |q| <= i && i != p && i !in breaks ==> NotOpen((q + loop)[i])
    ensures last[i] == (q + Fill(loop, |q| + |loop|))[i]
  {
    var end := |q| + |loop|;
    if i >= |q| {
      assert (q + Fill(loop, end))[i] == Filled(loop[i - |q|], end) == Filled((q + loop)[i], end);
      FilledOnce((q + loop)[i], end);
    }
  }

  lemma {:induction false} LoopPoints(q: seq<Point>, loop: seq<Point>, now: seq<Point>, last: seq<Point>, p: nat,
                                      breaks: seq<nat>)
    requires |q| <= p < |q| + |loop| && forall b :: b in breaks ==> b >= |q|
    requires now == (q + loop)[p := Filled((q + loop)[p], |q| + |loop|)] && FilledAt(now, last, breaks)
    requires forall i :: |q| <= i < |q| + |loop| && i != p && i !in breaks ==> NotOpen((q + loop)[i])
    ensures last == q + Fill(loop, |q| + |loop|)
  {
    var end := |q| + |loop|;
    var filled := q + Fill(loop, end);
    assert |last| == |filled| == end;
    hide Filled, Fill, FilledAt;
    forall i | 0 <= i < end ensures last[i] == filled[i] {
      FilledHere(q, loop, now, last, p, breaks, i);
    }
  }
}
