/** Functions that declare no locals: where their code is, only the parameters are in scope. */
module OwnLocals {
  import opened Wrappers
  import opened FunctionSyntax
  import opened Functions
  import opened Outlines
  import opened FunctionMeaning
  import M = FunctionMachine

  /** There are exactly `n` locals. */
  predicate Narrow(p: Point, n: nat) {
    |p.slots| >= n && forall i :: 0 <= i < |p.slots| ==> (p.slots[i].Some? <==> i < n)
  }

  /** There are more than `n` locals. */
  predicate Wide(p: Point, n: nat) {
    |p.slots| > n && p.slots[n].Some?
  }

  predicate AllNarrow(points: seq<Point>, n: nat) {
    forall p :: 0 <= p < |points| ==> Narrow(points[p], n)
  }

  predicate SomeWide(points: seq<Point>, n: nat) {
    exists p :: 0 <= p < |points| && Wide(points[p], n)
  }

  lemma {:induction false} NarrowJoin(a: seq<Point>, b: seq<Point>, n: nat)
    requires AllNarrow(a, n) && AllNarrow(b, n)
    ensures AllNarrow(a + b, n)
  {
  }

  lemma {:induction false} WideJoin(a: seq<Point>, b: seq<Point>, n: nat)
    requires SomeWide(a, n) || SomeWide(b, n)
    ensures SomeWide(a + b, n)
  {
    if SomeWide(a, n) {
      var p :| 0 <= p < |a| && Wide(a[p], n);
      assert Wide((a + b)[p], n);
    } else {
      var p :| 0 <= p < |b| && Wide(b[p], n);
      var q := |a| + p;
      assert (a + b)[q] == b[p];
    }
  }

  lemma {:induction false} OnePoint(mark: Mark, names: seq<string>, t: nat)
    ensures AllNarrow([Point(mark, Scope(names, t))], |names|)
    ensures forall n :: 0 <= n < |names| ==> SomeWide([Point(mark, Scope(names, t))], n)
  {
    forall n | 0 <= n < |names| ensures SomeWide([Point(mark, Scope(names, t))], n) {
      assert Wide([Point(mark, Scope(names, t))][0], n);
    }
  }

  // ----- No locals ------------------------------------------------------------------------------------------

  lemma {:induction false} NarrowE(e: Expr, f: nat, at: Site, t: nat)
    ensures AllNarrow(OfExpr(e, f, at, t).points, |at.names|)
    decreases e
  {
    hide Narrow;
    match e
    case Constant(v) => OnePoint(Push(v), at.names, t);
    case Name(x) => OnePoint(Read(x), at.names, t);
    case Assign(x, e1) =>
      NarrowE(e1, f, at, t);
      OnePoint(Write(x), at.names, t + 1);
    case Fn(params, body) =>
      var fns := OfFunction(params, body, f, at.around + [Scope(at.names, t)]);
      OnePoint(Make(f + |fns| - 1), at.names, t);
    case CallOf(callee, args) =>
      NarrowE(callee, f, at, t);
      var c := OfExpr(callee, f, at, t);
      NarrowArgs(args, |args|, f + |c.fns|, at, t + 1);
      OnePoint(Invoke(|args|), at.names, t + 1 + |args|);
  }

  lemma {:induction false} NarrowArgs(args: seq<Expr>, n: nat, f: nat, at: Site, t: nat)
    requires n <= |args|
    ensures AllNarrow(OfArgs(args, n, f, at, t).points, |at.names|)
    decreases args, n
  {
    hide Narrow;
    if n > 0 {
      NarrowArgs(args, n - 1, f, at, t);
      NarrowE(args[n - 1], f + |OfArgs(args, n - 1, f, at, t).fns|, at, t + n - 1);
    }
  }

  lemma {:induction false} NarrowFill(points: seq<Point>, end: nat, n: nat)
    requires AllNarrow(points, n)
    ensures AllNarrow(Fill(points, end), n)
  {
  }

  lemma {:induction false} NoVars(body: seq<Definition>, n: nat)
    requires n <= |body| && forall i :: 0 <= i < n ==> body[i].Plain?
    ensures VarNames(body, n) == []
  {
    if n > 0 {
      NoVars(body, n - 1);
    }
  }

  lemma {:induction false} NarrowS(stmt: Stmt, pc: nat, f: nat, at: Site)
    requires BareStmt(stmt)
    ensures AllNarrow(OfStmt(stmt, pc, f, at, 0).points, |at.names|)
    decreases stmt, 1
  {
    hide Narrow, Scope;
    match stmt
    case Do(e) =>
      NarrowE(e, f, at, 0);
      OnePoint(Drop, at.names, 1);
    case ReturnOf(e) =>
      NarrowE(e, f, at, 0);
      OnePoint(End, at.names, 1);
    case Break =>
      assert at.names[..|at.names|] == at.names;
      OnePoint(Hole, at.names, 0);
    case Block(parts) =>
      NarrowDefs(parts, |parts|, pc, f, at);
      NoVars(parts, |parts|);
    case If(cond, a) =>
      var c := OfExpr(cond, f, at, 0);
      var t := OfStmt(a, pc + |c.points| + 1, f + |c.fns|, at, 0);
      NarrowE(cond, f, at, 0);
      NarrowS(a, pc + |c.points| + 1, f + |c.fns|, at);
      IfCode(stmt, pc, f, at, 0);
      NarrowIf(c.points, Unless(pc + |c.points| + 1 + |t.points|), t.points, at);
    case IfElse(_, _, _) => NarrowIfElse(stmt, pc, f, at);
    case While(_, _) => NarrowWhile(stmt, pc, f, at);
  }

  lemma {:induction false} NarrowIfElse(stmt: Stmt, pc: nat, f: nat, at: Site)
    requires BareStmt(stmt) && stmt.IfElse?
    ensures AllNarrow(OfStmt(stmt, pc, f, at, 0).points, |at.names|)
    decreases stmt, 0
  {
    hide Narrow, Scope, OfExpr;
    var c := OfExpr(stmt.cond, f, at, 0);
    var t := OfStmt(stmt.thenBranch, pc + |c.points| + 1, f + |c.fns|, at, 0);
    var n := pc + |c.points| + 1 + |t.points| + 1;
    var e := OfStmt(stmt.elseBranch, n, f + |c.fns| + |t.fns|, at, 0);
    NarrowE(stmt.cond, f, at, 0);
    NarrowS(stmt.thenBranch, pc + |c.points| + 1, f + |c.fns|, at);
    NarrowS(stmt.elseBranch, n, f + |c.fns| + |t.fns|, at);
    IfElseCode(stmt, pc, f, at, 0);
    hide OfStmt;
    var mark := Goto(n + |e.points|);
    NarrowIf(c.points, Unless(n), t.points, at);
    OnePoint(mark, at.names, 0);
    NarrowJoin(c.points + [Test(Unless(n), at)] + t.points, [Plainly(mark, at)], |at.names|);
    NarrowJoin(c.points + [Test(Unless(n), at)] + t.points + [Plainly(mark, at)], e.points, |at.names|);
  }

  lemma {:induction false} NarrowWhile(stmt: Stmt, pc: nat, f: nat, at: Site)
    requires BareStmt(stmt) && stmt.While?
    ensures AllNarrow(OfStmt(stmt, pc, f, at, 0).points, |at.names|)
    decreases stmt, 0
  {
    hide Narrow, Scope, OfExpr, Fill;
    var c := OfExpr(stmt.cond, f, at, 0);
    var t := OfStmt(stmt.body, pc + |c.points| + 1, f + |c.fns|, at, 0);
    NarrowE(stmt.cond, f, at, 0);
    NarrowS(stmt.body, pc + |c.points| + 1, f + |c.fns|, at);
    WhileCode(stmt, pc, f, at, 0);
    hide OfStmt;
    NarrowIf(c.points, HoleUnless, t.points, at);
    OnePoint(Back(pc), at.names, 0);
    var loop := c.points + [Test(HoleUnless, at)] + t.points + [Plainly(Back(pc), at)];
    NarrowJoin(c.points + [Test(HoleUnless, at)] + t.points, [Plainly(Back(pc), at)], |at.names|);
    NarrowFill(loop, pc + |loop|, |at.names|);
  }

  lemma {:induction false} NarrowIf(c: seq<Point>, mark: Mark, t: seq<Point>, at: Site)
    requires AllNarrow(c, |at.names|) && AllNarrow(t, |at.names|)
    ensures AllNarrow(c + [Test(mark, at)] + t, |at.names|)
  {
    OnePoint(mark, at.names, 1);
    hide Narrow, Scope;
    NarrowJoin(c, [Test(mark, at)], |at.names|);
    NarrowJoin(c + [Test(mark, at)], t, |at.names|);
  }

  lemma {:induction false} NarrowDefs(body: seq<Definition>, n: nat, pc: nat, f: nat, at: Site)
    requires n <= |body| && Bare(body)
    ensures AllNarrow(OfDefs(body, n, pc, f, at, 0).points, |at.names|)
    decreases body, n
  {
    hide Narrow;
    if n > 0 {
      NarrowDefs(body, n - 1, pc, f, at);
      forall i | 0 <= i < n ensures body[i].Plain? {
        assert BareDef(body[i]);
      }
      NoVars(body, n - 1);
      assert With(at, []) == at by {
        assert at.names + [] == at.names;
      }
      var a := OfDefs(body, n - 1, pc, f, at, 0);
      NarrowDef(body[n - 1], pc + |a.points|, f + |a.fns|, at);
      NarrowJoin(a.points, OfDef(body[n - 1], pc + |a.points|, f + |a.fns|, at, 0).points, |at.names|);
    }
  }

  lemma {:induction false} NarrowDef(def: Definition, pc: nat, f: nat, at: Site)
    requires BareDef(def)
    ensures AllNarrow(OfDef(def, pc, f, at, 0).points, |at.names|)
    decreases def, 0
  {
    hide Narrow;
    NarrowS(def.s, pc, f, at);
  }

  // ----- Some locals ----------------------------------------------------------------------------------------

  lemma {:induction false} WideFill(points: seq<Point>, end: nat, n: nat)
    requires SomeWide(points, n)
    ensures SomeWide(Fill(points, end), n)
  {
    var p :| 0 <= p < |points| && Wide(points[p], n);
    assert Wide(Fill(points, end)[p], n);
  }

  lemma {:induction false} SomeVars(body: seq<Definition>, n: nat, i: nat)
    requires i < n <= |body| && body[i].Var?
    ensures VarNames(body, n) != []
  {
    if i < n - 1 {
      SomeVars(body, n - 1, i);
    }
  }

  lemma {:induction false} WideDrops(names: seq<string>, k: nat, n: nat)
    requires 0 < k <= |names| && n < |names|
    ensures SomeWide(Drops(names, k), n)
  {
    if k > 1 {
      WideDrops(names, k - 1, n);
    } else {
      assert names[..|names|] == names;
      OnePoint(Drop, names, 0);
    }
    WideJoin(Drops(names, k - 1), [Point(Drop, Scope(names[..|names| - k + 1], 0))], n);
  }

  lemma {:induction false} WideS(stmt: Stmt, pc: nat, f: nat, at: Site, k: nat, n: nat)
    requires !BareStmt(stmt) && n <= |at.names| && k <= |at.names|
    ensures SomeWide(OfStmt(stmt, pc, f, at, k).points, n)
    decreases stmt, 1
  {
    hide Wide, SomeWide, Scope;
    match stmt
    case Block(parts) =>
      var b, more := OfDefs(parts, |parts|, pc, f, at, k).points, VarNames(parts, |parts|);
      WideBody(parts, pc, f, at, k, n);
      if more != [] {
        WideDrops(at.names + more, |more|, n);
      }
      WideJoin(b, Drops(at.names + more, |more|), n);
    case If(cond, a) =>
      var c := OfExpr(cond, f, at, 0);
      var t := OfStmt(a, pc + |c.points| + 1, f + |c.fns|, at, k);
      WideS(a, pc + |c.points| + 1, f + |c.fns|, at, k, n);
      WideJoin(c.points + [Test(Unless(pc + |c.points| + 1 + |t.points|), at)], t.points, n);
    case IfElse(_, _, _) => WideIfElse(stmt, pc, f, at, k, n);
    case While(_, _) => WideWhile(stmt, pc, f, at, k, n);
  }

  lemma {:induction false} WideIfElse(stmt: Stmt, pc: nat, f: nat, at: Site, k: nat, n: nat)
    requires !BareStmt(stmt) && stmt.IfElse? && n <= |at.names| && k <= |at.names|
    ensures SomeWide(OfStmt(stmt, pc, f, at, k).points, n)
    decreases stmt, 0
  {
    hide Wide, SomeWide, Scope, OfExpr;
    var c := OfExpr(stmt.cond, f, at, 0);
    var t := OfStmt(stmt.thenBranch, pc + |c.points| + 1, f + |c.fns|, at, k);
    var m := pc + |c.points| + 1 + |t.points| + 1;
    var e := OfStmt(stmt.elseBranch, m, f + |c.fns| + |t.fns|, at, k);
    var jump := Plainly(Goto(m + |e.points|), at);
    IfElseCode(stmt, pc, f, at, k);
    if !BareStmt(stmt.thenBranch) {
      WideS(stmt.thenBranch, pc + |c.points| + 1, f + |c.fns|, at, k, n);
      WideJoin(c.points + [Test(Unless(m), at)], t.points, n);
      WideJoin(c.points + [Test(Unless(m), at)] + t.points, [jump], n);
    } else {
      WideS(stmt.elseBranch, m, f + |c.fns| + |t.fns|, at, k, n);
    }
    WideJoin(c.points + [Test(Unless(m), at)] + t.points + [jump], e.points, n);
  }

  lemma {:induction false} WideWhile(stmt: Stmt, pc: nat, f: nat, at: Site, k: nat, n: nat)
    requires !BareStmt(stmt) && stmt.While? && n <= |at.names| && k <= |at.names|
    ensures SomeWide(OfStmt(stmt, pc, f, at, k).points, n)
    decreases stmt, 0
  {
    hide Wide, SomeWide, Scope, OfExpr, Fill;
    var c := OfExpr(stmt.cond, f, at, 0);
    var t := OfStmt(stmt.body, pc + |c.points| + 1, f + |c.fns|, at, 0);
    WhileCode(stmt, pc, f, at, k);
    WideS(stmt.body, pc + |c.points| + 1, f + |c.fns|, at, 0, n);
    WideJoin(c.points + [Test(HoleUnless, at)], t.points, n);
    var loop := c.points + [Test(HoleUnless, at)] + t.points + [Plainly(Back(pc), at)];
    WideJoin(c.points + [Test(HoleUnless, at)] + t.points, [Plainly(Back(pc), at)], n);
    WideFill(loop, pc + |loop|, n);
  }

  /** Either a variable is declared, or there is one in a statement within. */
  lemma {:induction false} WideBody(body: seq<Definition>, pc: nat, f: nat, at: Site, k: nat, n: nat)
    requires !Bare(body) && n <= |at.names| && k <= |at.names|
    ensures VarNames(body, |body|) != [] || SomeWide(OfDefs(body, |body|, pc, f, at, k).points, n)
    decreases body, |body| + 1
  {
    var i :| 0 <= i < |body| && !BareDef(body[i]);
    if body[i].Var? {
      SomeVars(body, |body|, i);
    } else {
      WideDefs(body, |body|, i, pc, f, at, k, n);
    }
  }

  lemma {:induction false} WideDefs(body: seq<Definition>, m: nat, i: nat, pc: nat, f: nat, at: Site, k: nat, n: nat)
    requires i < m <= |body| && body[i].Plain? && !BareStmt(body[i].s) && n <= |at.names| && k <= |at.names|
    ensures SomeWide(OfDefs(body, m, pc, f, at, k).points, n)
    decreases body, m
  {
    hide Wide, SomeWide, Scope;
    var a, more := OfDefs(body, m - 1, pc, f, at, k), VarNames(body, m - 1);
    var d := OfDef(body[m - 1], pc + |a.points|, f + |a.fns|, With(at, more), k + |more|);
    if i < m - 1 {
      WideDefs(body, m - 1, i, pc, f, at, k, n);
    } else {
      WideDef(body[i], pc + |a.points|, f + |a.fns|, With(at, more), k + |more|, n);
    }
    WideJoin(a.points, d.points, n);
  }

  lemma {:induction false} WideDef(def: Definition, pc: nat, f: nat, at: Site, k: nat, n: nat)
    requires def.Plain? && !BareStmt(def.s) && n <= |at.names| && k <= |at.names|
    ensures SomeWide(OfDef(def, pc, f, at, k).points, n)
    decreases def, 0
  {
    hide Wide, SomeWide;
    WideS(def.s, pc, f, at, k, n);
  }

  // ----- Compiled functions ---------------------------------------------------------------------------------

  /** A compiled function has no locals exactly when its source declares none. */
  lemma {:induction false} BareIs(g: Function, params: seq<string>, body: seq<Definition>, f: nat, around: seq<Shape>)
    requires |g.kinds| == |g.code| && g.arity == |params|
    requires var code := OfFunction(params, body, f, around);
             Points(g.code, g.names, g.kinds, {}) == code[|code| - 1].points
    ensures M.NoLocals(g) <==> Bare(body)
  {
    var at := Entry(params, around);
    var b := OfDefs(body, |body|, 0, f, at, 0);
    var names := at.names + VarNames(body, |body|);
    var points := Points(g.code, g.names, g.kinds, {});
    assert points == b.points + Tail(names);
    PointsAre(g);
    hide Points;
    if Bare(body) {
      NarrowDefs(body, |body|, 0, f, at);
      forall i | 0 <= i < |body| ensures body[i].Plain? {
        assert BareDef(body[i]);
      }
      NoVars(body, |body|);
      assert names == at.names;
      OnePoint(Push(Null), names, 0);
      OnePoint(End, names, 1);
      assert AllNarrow(points, g.arity + 1);
    } else {
      WideBody(body, 0, f, at, 0, g.arity + 1);
      if VarNames(body, |body|) != [] {
        OnePoint(Push(Null), names, 0);
        assert Wide(Tail(names)[0], g.arity + 1);
      }
      WideJoin(b.points, Tail(names), g.arity + 1);
    }
  }

  lemma {:induction false} PointsAre(g: Function)
    requires |g.kinds| == |g.code|
    ensures var points := Points(g.code, g.names, g.kinds, {});
            && (AllNarrow(points, g.arity + 1) ==> M.NoLocals(g))
            && (SomeWide(points, g.arity + 1) ==> !M.NoLocals(g))
  {
    var points := Points(g.code, g.names, g.kinds, {});
    if AllNarrow(points, g.arity + 1) {
      forall p | 0 <= p < |g.kinds| ensures M.OnlyParameters(g.kinds[p], g.arity) {
        assert Narrow(points[p], g.arity + 1);
        assert points[p].slots == ShapeOf(g.kinds[p]);
        forall i | 0 <= i < |g.kinds[p]| ensures g.kinds[p][i].Named? <==> i <= g.arity {
          assert points[p].slots[i].Some? <==> i < g.arity + 1;
        }
      }
    }
    if SomeWide(points, g.arity + 1) {
      var p :| 0 <= p < |points| && Wide(points[p], g.arity + 1);
      assert points[p].slots == ShapeOf(g.kinds[p]);
      assert !M.OnlyParameters(g.kinds[p], g.arity);
    }
  }
}
