/** Running a statement's code does what the statement means, loops and `break` included. */
module SimulationStmt {
  import opened Basics
  import opened Wrappers
  import opened Syntax
  import opened Semantics
  import opened Bytecode
  import opened Octets
  import opened CodeGen
  import opened Vm
  import opened SimulationExpr
  import opened CodeGenLaws

  /** Where `break` goes from code that ends at `end`. */
  function Target(end: nat, x: Exit): Option<nat> {
    if x.To? then Some(end + x.distance) else None
  }

  /** How `n` turns of the interpreter from `st` match an outcome. Normally the code's end is
      reached with the variables in scope on the stack and nothing else; a `break` has dropped all
      but `base` of them and jumped to its target; when the fuel ran out, the frame is still
      running after at least that many turns. */
  ghost predicate Ended(m: Machine, st: State, n: nat, r: Outcome, fuel: nat, end: nat, target: Option<nat>,
                        base: nat) {
    var st' := Run(m, st, n);
    match r
    case Normal(env, w) => st' == Frame(end, env, [], w)
    case Broke(env, w) => target.Some? && base <= |env| && st' == Frame(target.value, env[..base], [], w)
    case Returned(v, w) => st'.status == Finished(v) && st'.w == w
    case Failed(w) => st'.status == Aborted && st'.w == w
    case Timeout => st'.status == Running && n >= fuel
  }

  lemma {:induction false} EndedAfter(m: Machine, st: State, n: nat, k: nat, r: Outcome, fuel: nat, end: nat,
                                      target: Option<nat>, base: nat)
    requires Ended(m, Run(m, st, n), k, r, fuel, end, target, base)
    ensures Ended(m, st, n + k, r, fuel, end, target, base)
  {
    RunAppend(m, st, n, k);
  }

  // ----- Single instructions -----------------------------------------------------------------------

  lemma {:induction false} PopStep(m: Machine, st: State)
    requires st.status == Running && st.stack != [] && At(m.code, st.pc, [Op(CODE_POP)])
    ensures Step(m, st) == State(st.pc + 1, Drop(st, 1), st.w, Running)
  {
    StepAt(m, st, Op(CODE_POP));
  }

  lemma {:induction false} PopsRun(m: Machine, pc: nat, env: Env, w: World, k: nat)
    requires k <= |env| && At(m.code, pc, Pops(k))
    ensures Run(m, Frame(pc, env, [], w), k) == Frame(pc + k, env[..|env| - k], [], w)
    ensures Size(Pops(k)) == k
    decreases k
  {
    var st := Frame(pc, env, [], w);
    if k == 0 {
      assert env[..|env|] == env;
    } else {
      assert Pops(k) == [Op(CODE_POP)] + Pops(k - 1);
      assert Pops(k)[1..] == Pops(k - 1);
      AtSplit(m.code, pc, [Op(CODE_POP)], Pops(k - 1));
      BytesOne(Op(CODE_POP));
      PopStep(m, st);
      var env' := env[..|env| - 1];
      assert Drop(st, 1) == Values(env') + [];
      PopsRun(m, pc + 1, env', w, k - 1);
      assert env'[..|env'| - (k - 1)] == env[..|env| - k];
    }
  }

  lemma {:induction false} LoadStep(m: Machine, pc: nat, env: Env, temps: seq<Value>, w: World, k: nat)
    requires k < |env| && k < 256 && At(m.code, pc, [LoadLocal(k)]) && |env| + |temps| < m.capacity
    ensures Step(m, Frame(pc, env, temps, w)) == Frame(pc + Size([LoadLocal(k)]), env, temps + [env[k].value], w)
  {
    BytesOne(LoadLocal(k));
    StepAt(m, Frame(pc, env, temps, w), LoadLocal(k));
    assert Values(env) + temps + [env[k].value] == Values(env) + (temps + [env[k].value]);
  }

  lemma {:induction false} StoreStep(m: Machine, pc: nat, env: Env, temps: seq<Value>, w: World, k: nat, v: Value)
    requires k < |env| && k < 256 && At(m.code, pc, [ByteOp(CODE_STORE_LOCAL, k)])
    ensures Step(m, Frame(pc, env, temps + [v], w)) == Frame(pc + 2, env[k := Binding(env[k].name, v)], temps + [v], w)
  {
    var st := Frame(pc, env, temps + [v], w);
    StepAt(m, st, ByteOp(CODE_STORE_LOCAL, k));
    assert Top(st) == v;
    assert st.stack[k := v] == Values(env[k := Binding(env[k].name, v)]) + (temps + [v]);
  }

  lemma {:induction false} LoopStep(m: Machine, st: State, d: nat)
    requires st.status == Running && d < 65536 && d <= st.pc + 3 && At(m.code, st.pc, [ShortOp(CODE_LOOP, d)])
    ensures Step(m, st) == st.(pc := st.pc + 3 - d)
  {
    StepAt(m, st, ShortOp(CODE_LOOP, d));
    ShortU16(d);
  }

  lemma {:induction false} ReturnStep(m: Machine, pc: nat, env: Env, w: World, v: Value)
    requires At(m.code, pc, [Op(CODE_RETURN)])
    ensures var st := Step(m, Frame(pc, env, [v], w)); st.status == Finished(v) && st.w == w
  {
    StepAt(m, Frame(pc, env, [v], w), Op(CODE_RETURN));
  }

  /** Evaluate an expression in statement position: nothing lies above the locals. */
  lemma {:induction false} EvalHere(m: Machine, T: Tables, e: Expr, pc: nat, env: Env, w: World) returns (n: nat)
    requires Coded(m, T) && FitsE(e, Names(env), T) && At(m.code, pc, GenE(e, Names(env), T))
    requires |env| + PeakE(e) <= m.capacity
    ensures var a := Eval(m.host, e, env, w);
            var st := Run(m, Frame(pc, env, [], w), n);
            if a.Err? then st.status == Aborted && st.w == a.w
            else st == Frame(pc + Size(GenE(e, Names(env), T)), a.env, [a.v], a.w)
  {
    hide At, Run, Size, GenE, Eval, FitsE, PeakE, Values;
    n := SimE(m, T, e, pc, env, [], w);
    var a := Eval(m.host, e, env, w);
    if a.Val? {
      assert [] + [a.v] == [a.v];
    }
  }

  // ----- Statements --------------------------------------------------------------------------------

  lemma {:induction false} SimExprS(m: Machine, T: Tables, e: Expr, pc: nat, env: Env, w: World, fuel: nat,
                                    target: Option<nat>, base: nat)
    returns (n: nat)
    requires Coded(m, T) && FitsE(e, Names(env), T) && At(m.code, pc, GenE(e, Names(env), T) + [Op(CODE_POP)])
    requires |env| + PeakE(e) <= m.capacity
    ensures var a := Eval(m.host, e, env, w);
            Ended(m, Frame(pc, env, [], w), n, if a.Err? then Failed(a.w) else Normal(a.env, a.w), fuel,
                  pc + Size(GenE(e, Names(env), T) + [Op(CODE_POP)]), target, base)
  {
    hide At, Run, Size, GenE, Eval, FitsE, PeakE;
    AtSplit(m.code, pc, GenE(e, Names(env), T), [Op(CODE_POP)]);
    BytesOne(Op(CODE_POP));
    n := EvalHere(m, T, e, pc, env, w);
    var a := Eval(m.host, e, env, w);
    if a.Val? {
      var st := Frame(pc + Size(GenE(e, Names(env), T)), a.env, [a.v], a.w);
      PopStep(m, st);
      assert Drop(st, 1) == Values(a.env) + [];
      OneMore(m, Frame(pc, env, [], w), n);
      n := n + 1;
    }
  }

  lemma {:induction false} SimReturn(m: Machine, T: Tables, e: Expr, pc: nat, env: Env, w: World, fuel: nat, end: nat,
                                     target: Option<nat>, base: nat)
    returns (n: nat)
    requires Coded(m, T) && FitsE(e, Names(env), T) && At(m.code, pc, GenE(e, Names(env), T) + [Op(CODE_RETURN)])
    requires |env| + PeakE(e) <= m.capacity
    ensures var a := Eval(m.host, e, env, w);
            Ended(m, Frame(pc, env, [], w), n, if a.Err? then Failed(a.w) else Returned(a.v, a.w), fuel, end, target,
                  base)
  {
    hide At, Run, Size, GenE, Eval, FitsE, PeakE;
    AtSplit(m.code, pc, GenE(e, Names(env), T), [Op(CODE_RETURN)]);
    n := EvalHere(m, T, e, pc, env, w);
    var a := Eval(m.host, e, env, w);
    if a.Val? {
      ReturnStep(m, pc + Size(GenE(e, Names(env), T)), a.env, a.w, a.v);
      OneMore(m, Frame(pc, env, [], w), n);
      n := n + 1;
    }
  }

  lemma {:induction false} SimBreak(m: Machine, pc: nat, env: Env, w: World, fuel: nat, base: nat,
                                    x: Exit) returns (n: nat)
    requires x.To? && x.distance < 65536 && base <= |env|
    requires At(m.code, pc, Pops(|env| - base) + [BreakOp(x)])
    ensures var end := pc + Size(Pops(|env| - base) + [BreakOp(x)]);
            Ended(m, Frame(pc, env, [], w), n, Broke(env, w), fuel, end, Target(end, x), base)
  {
    hide At, Run, Size;
    var k := |env| - base;
    AtSplit(m.code, pc, Pops(k), [BreakOp(x)]);
    BytesOne(BreakOp(x));
    PopsRun(m, pc, env, w, k);
    JumpStep(m, Frame(pc + k, env[..base], [], w), x.distance);
    OneMore(m, Frame(pc, env, [], w), k);
    n := k + 1;
  }

  /** The condition of a branch or loop, with the jump that follows it. */
  lemma {:induction false} SimTest(m: Machine, T: Tables, c: Expr, pc: nat, env: Env, w: World, d: nat) returns (n: nat)
    requires Coded(m, T) && FitsE(c, Names(env), T) && d < 65536
    requires At(m.code, pc, GenE(c, Names(env), T))
    requires At(m.code, pc + Size(GenE(c, Names(env), T)), [ShortOp(CODE_JUMP_IF, d)])
    requires |env| + PeakE(c) <= m.capacity
    ensures var a := Eval(m.host, c, env, w);
            var st := Run(m, Frame(pc, env, [], w), n);
            var next := pc + Size(GenE(c, Names(env), T)) + 3;
            if a.Err? then st.status == Aborted && st.w == a.w
            else st == Frame(if Falsy(a.v) then next + d else next, a.env, [], a.w)
  {
    hide At, Run, Size, GenE, Eval, FitsE, PeakE;
    n := EvalHere(m, T, c, pc, env, w);
    var a := Eval(m.host, c, env, w);
    if a.Val? {
      assert [] + [a.v] == [a.v];
      TestStep(m, pc + Size(GenE(c, Names(env), T)), a.env, [], a.w, a.v, d);
      OneMore(m, Frame(pc, env, [], w), n);
      n := n + 1;
    }
  }

  /** The simulation for statements: their code reaches its end, breaks, returns, aborts or goes on
      running exactly as the statement's meaning does. */
  lemma {:induction false} SimS(m: Machine, T: Tables, s: Stmt, pc: nat, env: Env, w: World, fuel: nat, base: nat,
                                x: Exit)
    returns (n: nat)
    requires Coded(m, T) && FitsS(s, Names(env), T, base, x) && At(m.code, pc, GenS(s, Names(env), T, base, x))
    requires |env| + PeakS(s) <= m.capacity && base <= |env|
    ensures var end := pc + Size(GenS(s, Names(env), T, base, x));
            Ended(m, Frame(pc, env, [], w), n, Exec(m.host, s, env, w, fuel), fuel, end, Target(end, x), base)
    decreases fuel, s, 3
  {
    hide At, Run, Size, Frame, Ended, GenS, FitsS, Exec, Names;
    match s
    case ExprS(_) => n := SimLeafS(m, T, s, pc, env, w, fuel, base, x);
    case Return(_) => n := SimLeafS(m, T, s, pc, env, w, fuel, base, x);
    case Break => n := SimLeafS(m, T, s, pc, env, w, fuel, base, x);
    case IfThen(_, _) => n := SimBranch(m, T, s, pc, env, w, fuel, base, x);
    case IfElse(_, _, _) => n := SimBranch2(m, T, s, pc, env, w, fuel, base, x);
    case While(_, _) => n := SimLoop(m, T, s, pc, env, w, fuel, base, x);
    case Block(_) => n := SimBlockS(m, T, s, pc, env, w, fuel, base, x);
    case For(_, _, _) => n := SimForS(m, T, s, pc, env, w, fuel, base, x);
  }

  lemma {:induction false} SimLeafS(m: Machine, T: Tables, s: Stmt, pc: nat, env: Env, w: World, fuel: nat, base: nat,
                                    x: Exit)
    returns (n: nat)
    requires s.ExprS? || s.Return? || s.Break?
    requires Coded(m, T) && FitsS(s, Names(env), T, base, x) && At(m.code, pc, GenS(s, Names(env), T, base, x))
    requires |env| + PeakS(s) <= m.capacity && base <= |env|
    ensures var end := pc + Size(GenS(s, Names(env), T, base, x));
            Ended(m, Frame(pc, env, [], w), n, Exec(m.host, s, env, w, fuel), fuel, end, Target(end, x), base)
    decreases fuel, s, 2
  {
    hide At, Run, Size, Frame, Ended, GenE, FitsE, Eval, PeakE, DeltaE, Leave, Fork, LoopTail, Names, Declared, Pops,
         Max;
    var end := pc + Size(GenS(s, Names(env), T, base, x));
    match s
    case ExprS(e) => n := SimExprS(m, T, e, pc, env, w, fuel, Target(end, x), base);
    case Return(e) => n := SimReturn(m, T, e, pc, env, w, fuel, end, Target(end, x), base);
    case Break => n := SimBreak(m, pc, env, w, fuel, base, x);
  }

  lemma {:induction false} SimBranch(m: Machine, T: Tables, s: Stmt, pc: nat, env: Env, w: World, fuel: nat, base: nat,
                                     x: Exit)
    returns (n: nat)
    requires s.IfThen?
    requires Coded(m, T) && FitsS(s, Names(env), T, base, x) && At(m.code, pc, GenS(s, Names(env), T, base, x))
    requires |env| + PeakS(s) <= m.capacity && base <= |env|
    ensures var end := pc + Size(GenS(s, Names(env), T, base, x));
            Ended(m, Frame(pc, env, [], w), n, Exec(m.host, s, env, w, fuel), fuel, end, Target(end, x), base)
    decreases fuel, s, 2
  {
    hide At, Run, Size, Frame, Ended, GenE, FitsE, Eval, PeakE, DeltaE, Leave, Fork, LoopTail, Names, Declared, Pops,
         Max;
    n := SimIfThen(m, T, s, s.c, s.t, pc, env, w, fuel, base, x);
  }

  lemma {:induction false} SimBranch2(m: Machine, T: Tables, s: Stmt, pc: nat, env: Env, w: World, fuel: nat, base: nat,
                                      x: Exit)
    returns (n: nat)
    requires s.IfElse?
    requires Coded(m, T) && FitsS(s, Names(env), T, base, x) && At(m.code, pc, GenS(s, Names(env), T, base, x))
    requires |env| + PeakS(s) <= m.capacity && base <= |env|
    ensures var end := pc + Size(GenS(s, Names(env), T, base, x));
            Ended(m, Frame(pc, env, [], w), n, Exec(m.host, s, env, w, fuel), fuel, end, Target(end, x), base)
    decreases fuel, s, 2
  {
    hide At, Run, Size, Frame, Ended, GenE, FitsE, Eval, PeakE, DeltaE, Leave, Fork, LoopTail, Names, Declared, Pops,
         Max;
    n := SimIfElse(m, T, s, s.c, s.t, s.f, pc, env, w, fuel, base, x);
  }

  lemma {:induction false} SimLoop(m: Machine, T: Tables, s: Stmt, pc: nat, env: Env, w: World, fuel: nat, base: nat,
                                   x: Exit)
    returns (n: nat)
    requires s.While?
    requires Coded(m, T) && FitsS(s, Names(env), T, base, x) && At(m.code, pc, GenS(s, Names(env), T, base, x))
    requires |env| + PeakS(s) <= m.capacity && base <= |env|
    ensures var end := pc + Size(GenS(s, Names(env), T, base, x));
            Ended(m, Frame(pc, env, [], w), n, Exec(m.host, s, env, w, fuel), fuel, end, Target(end, x), base)
    decreases fuel, s, 2
  {
    hide At, Run, Size, Frame, Ended, GenE, FitsE, Eval, PeakE, DeltaE, Leave, Fork, LoopTail, Names, Declared, Pops,
         Max;
    n := SimWhile(m, T, s, s.c, s.body, pc, env, w, fuel, base, x);
  }

  lemma {:induction false} SimIfThen(m: Machine, T: Tables, s: Stmt, c: Expr, t: Stmt, pc: nat, env: Env, w: World,
                                     fuel: nat, base: nat, x: Exit) returns (n: nat)
    requires s == IfThen(c, t) && base <= |env|
    requires Coded(m, T) && FitsE(c, Names(env), T) && FitsS(t, Names(env), T, base, x)
    requires Size(GenS(t, Names(env), T, base, x)) < 65536
    requires At(m.code, pc, GenE(c, Names(env), T) + [ShortOp(CODE_JUMP_IF, Size(GenS(t, Names(env), T, base, x)))]
                            + GenS(t, Names(env), T, base, x))
    requires |env| + Max(PeakE(c), DeltaE(c) - 1 + PeakS(t)) <= m.capacity
    ensures var a := Eval(m.host, c, env, w);
            var end := pc + Size(GenE(c, Names(env), T) + [ShortOp(CODE_JUMP_IF, Size(GenS(t, Names(env), T, base, x)))]
                                 + GenS(t, Names(env), T, base, x));
            Ended(m, Frame(pc, env, [], w), n,
                  if a.Err? then Failed(a.w)
                  else if Falsy(a.v) then Normal(a.env, a.w)
                  else Exec(m.host, t, a.env, a.w, fuel), fuel, end, Target(end, x), base)
    decreases fuel, s, 1
  {
    hide At, Step, Run, Size, Values, GenE, GenS, GenB, FitsE, FitsS, FitsB, Eval, Exec, PeakE, PeakS, DeltaE, DeltaS;
    var st, cc, tc := Frame(pc, env, [], w), GenE(c, Names(env), T), GenS(t, Names(env), T, base, x);
    var test := ShortOp(CODE_JUMP_IF, Size(tc));
    AtSplit3(m.code, pc, cc, [test], tc);
    BytesOne(test);
    n := SimTest(m, T, c, pc, env, w, Size(tc));
    var a := Eval(m.host, c, env, w);
    if a.Val? && !Falsy(a.v) {
      var k := SimS(m, T, t, pc + Size(cc) + 3, a.env, a.w, fuel, base, x);
      var end := pc + Size(cc) + 3 + Size(tc);
      EndedAfter(m, st, n, k, Exec(m.host, t, a.env, a.w, fuel), fuel, end, Target(end, x), base);
      n := n + k;
    }
  }

  lemma {:induction false} SimIfElse(m: Machine, T: Tables, s: Stmt, c: Expr, t: Stmt, f: Stmt, pc: nat, env: Env,
                                     w: World, fuel: nat, base: nat, x: Exit) returns (n: nat)
    requires s == IfElse(c, t, f) && base <= |env|
    requires var fc := GenS(f, Names(env), T, base, x);
             var y := Past(x, 3 + Size(fc));
             var tc := GenS(t, Names(env), T, base, y);
             && Coded(m, T) && FitsE(c, Names(env), T) && FitsS(t, Names(env), T, base, y)
                && FitsS(f, Names(env), T, base, x)
             && Size(tc) + 3 < 65536 && Size(fc) < 65536
             && At(m.code, pc, GenE(c, Names(env), T) + Fork(tc, fc))
    requires |env| + Max(PeakE(c), Max(DeltaE(c) - 1 + PeakS(t), DeltaE(c) - 1 + DeltaS(t) + PeakS(f))) <= m.capacity
    ensures var a := Eval(m.host, c, env, w);
            var fc := GenS(f, Names(env), T, base, x);
            var tc := GenS(t, Names(env), T, base, Past(x, 3 + Size(fc)));
            var end := pc + Size(GenE(c, Names(env), T) + Fork(tc, fc));
            Ended(m, Frame(pc, env, [], w), n,
                  if a.Err? then Failed(a.w)
                  else if Falsy(a.v) then Exec(m.host, f, a.env, a.w, fuel)
                  else Exec(m.host, t, a.env, a.w, fuel), fuel, end, Target(end, x), base)
    decreases fuel, s, 1
  {
    hide At, Step, Run, Size, Values, GenE, GenS, GenB, FitsE, FitsS, FitsB, Eval, Exec, PeakE, PeakS, DeltaE, DeltaS;
    hide Fork;
    var st, cc, fc := Frame(pc, env, [], w), GenE(c, Names(env), T), GenS(f, Names(env), T, base, x);
    var y := Past(x, 3 + Size(fc));
    var tc := GenS(t, Names(env), T, base, y);
    var p1, p2, p3 := ForkAt(m.code, pc, cc, tc, fc);
    var end := p3 + Size(fc);
    n := SimTest(m, T, c, pc, env, w, Size(tc) + 3);
    var a := Eval(m.host, c, env, w);
    if a.Val? {
      if Falsy(a.v) {
        var k := SimS(m, T, f, p3, a.env, a.w, fuel, base, x);
        EndedAfter(m, st, n, k, Exec(m.host, f, a.env, a.w, fuel), fuel, end, Target(end, x), base);
        n := n + k;
      } else {
        var k := SimS(m, T, t, p1, a.env, a.w, fuel, base, y);
        var r := Exec(m.host, t, a.env, a.w, fuel);
        EndedAfter(m, st, n, k, r, fuel, p2, Target(p2, y), base);
        n := n + k;
        if r.Normal? {
          JumpStep(m, Frame(p2, r.env, [], r.w), Size(fc));
          OneMore(m, st, n);
          n := n + 1;
        }
      }
    }
  }

  /** Where the pieces of a loop lie. */
  lemma {:induction false} LoopAt(code: seq<byte>, pc: nat, cc: seq<Instr>, bind: seq<Instr>,
                                  bc: seq<Instr>) returns (p1: nat, p2: nat, p3: nat)
    requires At(code, pc, cc + LoopTail(Size(cc), bind, bc))
    ensures p1 == pc + Size(cc) + 3 && p2 == p1 + Size(bind) && p3 == p2 + Size(bc)
    ensures pc + Size(cc + LoopTail(Size(cc), bind, bc)) == p3 + 3
    ensures At(code, pc, cc) && At(code, pc + Size(cc), [ShortOp(CODE_JUMP_IF, Size(bind) + Size(bc) + 3)])
    ensures At(code, p1, bind) && At(code, p2, bc)
    ensures At(code, p3, [ShortOp(CODE_LOOP, Size(cc) + Size(bind) + Size(bc) + 6)])
  {
    hide At, Size, ShortOp, LoopTail;
    BytesAppend(bind, bc);
    var n := Size(bind + bc);
    var test, loop := [ShortOp(CODE_JUMP_IF, n + 3)], [ShortOp(CODE_LOOP, Size(cc) + 3 + n + 3)];
    ShortSize(CODE_JUMP_IF, n + 3);
    ShortSize(CODE_LOOP, Size(cc) + 3 + n + 3);
    LoopTailIs(Size(cc), bind, bc);
    AtSplit(code, pc, cc, LoopTail(Size(cc), bind, bc));
    LoopPieces(code, pc + Size(cc), test, bind, bc, loop);
    p1 := pc + Size(cc) + 3;
    p2 := p1 + Size(bind);
    p3 := p2 + Size(bc);
  }

  lemma {:induction false} LoopTailIs(head: nat, bind: seq<Instr>, bc: seq<Instr>)
    ensures LoopTail(head, bind, bc) == [ShortOp(CODE_JUMP_IF, Size(bind + bc) + 3)] + (bind + bc)
                                        + [ShortOp(CODE_LOOP, head + 3 + Size(bind + bc) + 3)]
  {
    hide Size, ShortOp;
  }

  lemma {:induction false} LoopPieces(code: seq<byte>, pc: nat, test: seq<Instr>, bind: seq<Instr>, bc: seq<Instr>,
                                      loop: seq<Instr>)
    requires At(code, pc, test + (bind + bc) + loop) && Size(test) == 3 && Size(loop) == 3
    ensures Size(test + (bind + bc) + loop) == 3 + Size(bind) + Size(bc) + 3
    ensures At(code, pc, test) && At(code, pc + 3, bind) && At(code, pc + 3 + Size(bind), bc)
    ensures At(code, pc + 3 + Size(bind) + Size(bc), loop)
  {
    hide At, Size;
    AtSplit3(code, pc, test, bind + bc, loop);
    AtSplit(code, pc + 3, bind, bc);
  }

  lemma {:induction false} SimWhile(m: Machine, T: Tables, s: Stmt, c: Expr, body: Stmt, pc: nat, env: Env, w: World,
                                    fuel: nat, base: nat, x: Exit) returns (n: nat)
    requires s == While(c, body) && base <= |env| && FitsS(s, Names(env), T, base, x)
    requires var cc := GenE(c, Names(env), T);
             var bc := GenS(body, Names(env), T, |env|, To(3));
             && Coded(m, T) && FitsE(c, Names(env), T) && FitsS(body, Names(env), T, |env|, To(3))
             && GenS(s, Names(env), T, base, x) == cc + LoopTail(Size(cc), [], bc)
             && Size(cc) + Size(bc) + 6 < 65536
             && At(m.code, pc, cc + LoopTail(Size(cc), [], bc))
    requires PeakS(s) == Max(PeakE(c), DeltaE(c) - 1 + PeakS(body)) && |env| + PeakS(s) <= m.capacity
    ensures var a := Eval(m.host, c, env, w);
            var r := if a.Val? && !Falsy(a.v) then Exec(m.host, body, a.env, a.w, fuel) else Timeout;
            var end := pc + Size(GenS(s, Names(env), T, base, x));
            Ended(m, Frame(pc, env, [], w), n,
                  if a.Err? then Failed(a.w)
                  else if Falsy(a.v) then Normal(a.env, a.w)
                  else if !r.Normal? then EndBreak(r)
                  else if fuel == 0 then Timeout
                  else Exec(m.host, s, r.env, r.w, fuel - 1), fuel, end, Target(end, x), base)
    decreases fuel, s, 1
  {
    hide At, Step, Run, Size, Values, GenE, GenS, GenB, FitsE, FitsS, FitsB, Eval, Exec, PeakE, PeakS, DeltaE, DeltaS;
    hide LoopTail;
    var st, cc, bc := Frame(pc, env, [], w), GenE(c, Names(env), T), GenS(body, Names(env), T, |env|, To(3));
    var p1, p2, p3 := LoopAt(m.code, pc, cc, [], bc);
    var end := p3 + 3;
    SizeNone();
    n := SimTest(m, T, c, pc, env, w, Size(bc) + 3);
    var a := Eval(m.host, c, env, w);
    if a.Val? && !Falsy(a.v) {
      var k := SimS(m, T, body, p1, a.env, a.w, fuel, |env|, To(3));
      var r := Exec(m.host, body, a.env, a.w, fuel);
      EndedAfter(m, st, n, k, r, fuel, p3, Target(p3, To(3)), |env|);
      n := n + k;
      if r.Normal? {
        var turn := n;
        LoopStep(m, Frame(p3, r.env, [], r.w), Size(cc) + Size(bc) + 6);
        OneMore(m, st, n);
        n := n + 1;
        if fuel > 0 {
          var j := SimS(m, T, s, pc, r.env, r.w, fuel - 1, base, x);
          var rest := Exec(m.host, s, r.env, r.w, fuel - 1);
          EndedAfter(m, st, n, j, rest, fuel - 1, end, Target(end, x), base);
          n := n + j;
        }
      } else if r.Broke? {
        assert r.env[..|env|] == r.env;
      }
    }
  }

  lemma {:induction false} SizeNone()
    ensures Size([]) == 0
  {
  }

  // ----- Blocks ------------------------------------------------------------------------------------

  /** The simulation for the definitions of a block: at the end the declared variables sit on the
      stack in declaration order. */
  lemma {:induction false} SimB(m: Machine, T: Tables, b: Body, pc: nat, env: Env, w: World, fuel: nat, base: nat,
                                x: Exit)
    returns (n: nat)
    requires Coded(m, T) && FitsB(b, Names(env), T, base, x) && At(m.code, pc, GenB(b, Names(env), T, base, x))
    requires |env| + PeakB(b) <= m.capacity && base <= |env|
    ensures var end := pc + Size(GenB(b, Names(env), T, base, x));
            Ended(m, Frame(pc, env, [], w), n, ExecBody(m.host, b, env, w, fuel), fuel, end, Target(end, x), base)
    decreases fuel, b, 3
  {
    hide At, Run, Step, Values, GenE, GenS, FitsE, FitsS, Eval, Exec, PeakE, PeakS, DeltaE, DeltaS, Names;
    match b
    case Done =>
      n := 0;
      RunNone(m, Frame(pc, env, [], w));
    case VarThen(_, _, _) => n := SimVar(m, T, b, b.x, b.init, b.rest, pc, env, w, fuel, base, x);
    case StmtThen(_, _) => n := SimThen(m, T, b, b.s, b.rest, pc, env, w, fuel, base, x);
  }

  lemma {:induction false} SimVar(m: Machine, T: Tables, b: Body, v: string, init: Expr, rest: Body, pc: nat, env: Env,
                                  w: World, fuel: nat, base: nat, x: Exit) returns (n: nat)
    requires b == VarThen(v, init, rest) && base <= |env|
    requires Coded(m, T) && FitsE(init, Names(env), T) && FitsB(rest, Names(env) + [v], T, base, x)
    requires At(m.code, pc, GenE(init, Names(env), T) + GenB(rest, Names(env) + [v], T, base, x))
    requires |env| + Max(PeakE(init), DeltaE(init) + PeakB(rest)) <= m.capacity
    ensures var a := Eval(m.host, init, env, w);
            var end := pc + Size(GenE(init, Names(env), T) + GenB(rest, Names(env) + [v], T, base, x));
            Ended(m, Frame(pc, env, [], w), n,
                  if a.Err? then Failed(a.w) else ExecBody(m.host, rest, a.env + [Binding(v, a.v)], a.w, fuel),
                  fuel, end, Target(end, x), base)
    decreases fuel, b, 1
  {
    hide At, Step, Run, Size, GenE, GenB, FitsE, FitsB, Eval, ExecBody, PeakE, PeakB, DeltaE;
    var st, cc, rc := Frame(pc, env, [], w), GenE(init, Names(env), T), GenB(rest, Names(env) + [v], T, base, x);
    AtSplit(m.code, pc, cc, rc);
    n := EvalHere(m, T, init, pc, env, w);
    var a := Eval(m.host, init, env, w);
    if a.Val? {
      var env' := a.env + [Binding(v, a.v)];
      Declare(a.env, v, a.v, pc + Size(cc), a.w);
      var k := SimB(m, T, rest, pc + Size(cc), env', a.w, fuel, base, x);
      var end := pc + Size(cc) + Size(rc);
      EndedAfter(m, st, n, k, ExecBody(m.host, rest, env', a.w, fuel), fuel, end, Target(end, x), base);
      n := n + k;
    }
  }

  /** A new variable is the temporary its initializer left. */
  lemma {:induction false} Declare(env: Env, v: string, a: Value, pc: nat, w: World)
    ensures Names(env + [Binding(v, a)]) == Names(env) + [v]
    ensures Frame(pc, env, [a], w) == Frame(pc, env + [Binding(v, a)], [], w)
  {
    assert Values(env) + [a] == Values(env + [Binding(v, a)]) + [];
  }

  lemma {:induction false} SimThen(m: Machine, T: Tables, b: Body, s: Stmt, rest: Body, pc: nat, env: Env, w: World,
                                   fuel: nat, base: nat, x: Exit) returns (n: nat)
    requires b == StmtThen(s, rest) && base <= |env|
    requires var rc := GenB(rest, Names(env), T, base, x);
             var y := Past(x, Size(rc));
             && Coded(m, T) && FitsS(s, Names(env), T, base, y) && FitsB(rest, Names(env), T, base, x)
             && At(m.code, pc, GenS(s, Names(env), T, base, y) + rc)
    requires |env| + Max(PeakS(s), DeltaS(s) + PeakB(rest)) <= m.capacity
    ensures var r := Exec(m.host, s, env, w, fuel);
            var rc := GenB(rest, Names(env), T, base, x);
            var end := pc + Size(GenS(s, Names(env), T, base, Past(x, Size(rc))) + rc);
            Ended(m, Frame(pc, env, [], w), n,
                  if !r.Normal? then r else ExecBody(m.host, rest, r.env, r.w, fuel), fuel, end, Target(end, x), base)
    decreases fuel, b, 1
  {
    hide At, Step, Run, Size, Values, GenS, GenB, FitsS, FitsB, Exec, ExecBody, PeakS, PeakB, DeltaS;
    var st, rc := Frame(pc, env, [], w), GenB(rest, Names(env), T, base, x);
    var y := Past(x, Size(rc));
    var sc := GenS(s, Names(env), T, base, y);
    AtSplit(m.code, pc, sc, rc);
    n := SimS(m, T, s, pc, env, w, fuel, base, y);
    var r := Exec(m.host, s, env, w, fuel);
    if r.Normal? {
      var k := SimB(m, T, rest, pc + Size(sc), r.env, r.w, fuel, base, x);
      var end := pc + Size(sc) + Size(rc);
      EndedAfter(m, st, n, k, ExecBody(m.host, rest, r.env, r.w, fuel), fuel, end, Target(end, x), base);
      n := n + k;
    }
  }

  lemma {:induction false} SimBlockS(m: Machine, T: Tables, s: Stmt, pc: nat, env: Env, w: World, fuel: nat, base: nat,
                                     x: Exit)
    returns (n: nat)
    requires s.Block?
    requires Coded(m, T) && FitsS(s, Names(env), T, base, x) && At(m.code, pc, GenS(s, Names(env), T, base, x))
    requires |env| + PeakS(s) <= m.capacity && base <= |env|
    ensures var end := pc + Size(GenS(s, Names(env), T, base, x));
            Ended(m, Frame(pc, env, [], w), n, Exec(m.host, s, env, w, fuel), fuel, end, Target(end, x), base)
    decreases fuel, s, 2
  {
    hide At, Run, Step, Size, Values, GenE, GenB, FitsE, FitsB, Eval, ExecBody, PeakE, PeakB, DeltaE, Declared, Max,
         LoopTail;
    var b, d := s.b, |Declared(s.b)|;
    var st, y := Frame(pc, env, [], w), Past(x, d);
    var bc := GenB(b, Names(env), T, base, y);
    AtSplit(m.code, pc, bc, Pops(d));
    n := SimB(m, T, b, pc, env, w, fuel, base, y);
    var r := ExecBody(m.host, b, env, w, fuel);
    var p1 := pc + Size(bc);
    PopsSize(d);
    if r.Normal? {
      PopsRun(m, p1, r.env, r.w, d);
      RunAppend(m, st, n, d);
      n := n + d;
    } else if r.Broke? {
      assert r.env[..|env|][..base] == r.env[..base];
    }
  }

  // ----- for loops -----------------------------------------------------------------------------------

  /** Sending a message about the two hidden locals. */
  lemma {:induction false} SimPair(m: Machine, T: Tables, sig: string, k: nat, pc: nat, env: Env, w: World)
    requires Coded(m, T) && SigOk(T, sig) && k + 1 < |env| && k + 1 < 256 && |env| + 2 <= m.capacity
    requires At(m.code, pc, [LoadLocal(k), LoadLocal(k + 1), CallOp(T, 1, sig)])
    ensures Answered(Run(m, Frame(pc, env, [], w), 3), Send(m.host, env, w, sig, [env[k].value, env[k + 1].value]),
                     pc + Size([LoadLocal(k), LoadLocal(k + 1), CallOp(T, 1, sig)]), [])
  {
    hide Run, Step, Send, Values, SigOk, IndexOf, LoadLocal, CallOp, At, Size;
    var a, b, c := LoadLocal(k), LoadLocal(k + 1), CallOp(T, 1, sig);
    assert [a] + [b] + [c] == [a, b, c];
    AtSplit3(m.code, pc, [a], [b], [c]);
    CallSize(T, 1, sig);
    var x, y := env[k].value, env[k + 1].value;
    var st := Frame(pc, env, [], w);
    LoadStep(m, pc, env, [], w, k);
    assert [] + [x] == [x];
    LoadStep(m, pc + Size([a]), env, [x], w, k + 1);
    assert [x] + [y] == [x, y] == [] + [x, y];
    CallStep(m, T, pc + Size([a]) + Size([b]), env, [], w, sig, [x, y]);
    RunNone(m, st);
    OneMore(m, st, 0);
    OneMore(m, st, 1);
    OneMore(m, st, 2);
  }

  lemma {:induction false} CallSize(T: Tables, numArgs: nat, sig: string)
    requires numArgs <= 16
    ensures Size([CallOp(T, numArgs, sig)]) == 3
  {
    BytesOne(CallOp(T, numArgs, sig));
  }

  /** iter = seq.iterate(iter), leaving the new iterator on the stack. */
  lemma {:induction false} SimAdvance(m: Machine, T: Tables, k: nat, pc: nat, env: Env, w: World) returns (n: nat)
    requires Coded(m, T) && SigOk(T, ITERATE) && k + 1 < |env| && k + 1 < 256 && |env| + 2 <= m.capacity
    requires At(m.code, pc, Advance(k, T))
    ensures var a := Send(m.host, env, w, ITERATE, [env[k].value, env[k + 1].value]);
            var st := Run(m, Frame(pc, env, [], w), n);
            if a.Err? then st.status == Aborted && st.w == a.w
            else st == Frame(pc + Size(Advance(k, T)), env[k + 1 := Binding(env[k + 1].name, a.v)], [a.v], a.w)
  {
    hide Run, Step, Values, SigOk, IndexOf, LoadLocal, CallOp, At, Size;
    var st := Frame(pc, env, [], w);
    var three, store := [LoadLocal(k), LoadLocal(k + 1), CallOp(T, 1, ITERATE)], ByteOp(CODE_STORE_LOCAL, k + 1);
    assert three + [store] == Advance(k, T);
    AtSplit(m.code, pc, three, [store]);
    BytesOne(store);
    SimPair(m, T, ITERATE, k, pc, env, w);
    n := 3;
    var a := Send(m.host, env, w, ITERATE, [env[k].value, env[k + 1].value]);
    if a.Val? {
      assert [] + [a.v] == [a.v];
      StoreStep(m, pc + Size(three), env, [], a.w, k + 1, a.v);
      OneMore(m, st, n);
      n := n + 1;
    }
  }

  /** The simulation for the iterations of a `for` loop. */
  lemma {:induction false} SimFor(m: Machine, T: Tables, v: string, body: Stmt, pc: nat, env: Env, w: World, fuel: nat)
    returns (n: nat)
    requires 2 <= |env| <= 256 && Coded(m, T) && SigOk(T, ITERATE) && SigOk(T, ITERATOR_VALUE)
    requires FitsS(body, Names(env) + [v], T, |env|, To(4)) && Size(GenFor(v, body, Names(env), T)) < 65536
    requires At(m.code, pc, GenFor(v, body, Names(env), T))
    requires |env| + Max(2, 1 + PeakS(body)) <= m.capacity
    ensures Ended(m, Frame(pc, env, [], w), n, ExecFor(m.host, v, body, env, w, fuel), fuel,
                  pc + Size(GenFor(v, body, Names(env), T)), None, 0)
    decreases fuel, body, 5
  {
    hide At, Step, Run, Size, Values, GenS, FitsS, SigOk, Send, Exec, PeakS, LoopTail, LoadLocal, Advance, Current,
         Leave, Names;
    var k := |env| - 2;
    var st, bc := Frame(pc, env, [], w), GenS(body, Names(env) + [v], T, |env|, To(4));
    var cc, bind := Advance(k, T), Current(k, T);
    var p1, p2, p3 := LoopAt(m.code, pc, cc, bind, bc + [Op(CODE_POP)]);
    var a := Send(m.host, env, w, ITERATE, [env[k].value, env[k + 1].value]);
    n := SimAdvance(m, T, k, pc, env, w);
    if a.Val? {
      var env1 := env[k + 1 := Binding(env[k + 1].name, a.v)];
      TestAfter(m, pc + Size(cc), env1, a.w, a.v, Size(bind) + Size(bc + [Op(CODE_POP)]) + 3);
      OneMore(m, st, n);
      n := n + 1;
      if !Falsy(a.v) {
        assert Names(env1) == Names(env) by { SameNames(env, k + 1, a.v); }
        var j := SimTurn(m, T, v, body, p1, env1, a.w, fuel);
        RunAppend(m, st, n, j);
        n := n + j;
        var b := Send(m.host, env1, a.w, ITERATOR_VALUE, [env1[k].value, env1[k + 1].value]);
        if b.Val? {
          var r := Leave(Exec(m.host, body, env1 + [Binding(v, b.v)], b.w, fuel), |env|);
          if r.Normal? {
            LoopStep(m, Frame(p3, r.env, [], r.w), Size(cc) + Size(bind) + Size(bc + [Op(CODE_POP)]) + 6);
            OneMore(m, st, n);
            n := n + 1;
            if fuel > 0 {
              TurnNames(m.host, body, env1, v, b.v, b.w, fuel);
              var i := SimFor(m, T, v, body, pc, r.env, r.w, fuel - 1);
              RunAppend(m, st, n, i);
              n := n + i;
            }
          } else if r.Broke? {
            TurnNames(m.host, body, env1, v, b.v, b.w, fuel);
            assert r.env[..|env|] == r.env;
          }
        }
      }
    }
  }

  lemma {:induction false} SameNames(env: Env, k: nat, v: Value)
    requires k < |env|
    ensures Names(env[k := Binding(env[k].name, v)]) == Names(env)
  {
  }

  /** One turn of a `for` loop gives its variables back as they were named. */
  lemma {:induction false} TurnNames(h: Host, body: Stmt, env: Env, v: string, x: Value, w: World, fuel: nat)
    ensures var r := Leave(Exec(h, body, env + [Binding(v, x)], w, fuel), |env|);
            r.Normal? || r.Broke? ==> Names(r.env) == Names(env)
  {
    hide Exec;
    assert Names(env + [Binding(v, x)])[..|env|] == Names(env);
  }

  lemma {:induction false} TestAfter(m: Machine, pc: nat, env: Env, w: World, v: Value, d: nat)
    requires d < 65536 && At(m.code, pc, [ShortOp(CODE_JUMP_IF, d)])
    ensures Step(m, Frame(pc, env, [v], w)) == Frame(if Falsy(v) then pc + 3 + d else pc + 3, env, [], w)
  {
    assert [] + [v] == [v];
    TestStep(m, pc, env, [], w, v, d);
  }

  /** One turn of a `for` loop, from the binding of its variable to the jump back. */
  lemma {:induction false} SimTurn(m: Machine, T: Tables, v: string, body: Stmt, pc: nat, env: Env, w: World, fuel: nat)
    returns (n: nat)
    requires 2 <= |env| <= 256 && Coded(m, T) && SigOk(T, ITERATOR_VALUE)
    requires FitsS(body, Names(env) + [v], T, |env|, To(4))
    requires var bc := GenS(body, Names(env) + [v], T, |env|, To(4));
             && At(m.code, pc, Current(|env| - 2, T))
                && At(m.code, pc + Size(Current(|env| - 2, T)), bc + [Op(CODE_POP)])
    requires |env| + Max(2, 1 + PeakS(body)) <= m.capacity
    ensures var k := |env| - 2;
            var b := Send(m.host, env, w, ITERATOR_VALUE, [env[k].value, env[k + 1].value]);
            var bc := GenS(body, Names(env) + [v], T, |env|, To(4));
            var r := if b.Err? then Failed(b.w)
                     else Leave(Exec(m.host, body, env + [Binding(v, b.v)], b.w, fuel), |env|);
            var end := pc + Size(Current(k, T)) + Size(bc + [Op(CODE_POP)]);
            Ended(m, Frame(pc, env, [], w), n, r, fuel, end, Some(end + 3), |env|)
    decreases fuel, body, 4
  {
    hide At, Step, Run, Size, Values, GenS, FitsS, Send, Exec, PeakS, LoadLocal, SigOk;
    var k, st, bc := |env| - 2, Frame(pc, env, [], w), GenS(body, Names(env) + [v], T, |env|, To(4));
    var p2 := pc + Size(Current(k, T));
    AtSplit(m.code, p2, bc, [Op(CODE_POP)]);
    BytesOne(Op(CODE_POP));
    SimPair(m, T, ITERATOR_VALUE, k, pc, env, w);
    n := 3;
    var b := Send(m.host, env, w, ITERATOR_VALUE, [env[k].value, env[k + 1].value]);
    if b.Val? {
      assert b.env == env by { SendKeeps(m.host, env, w, ITERATOR_VALUE, [env[k].value, env[k + 1].value]); }
      var env2 := env + [Binding(v, b.v)];
      assert [] + [b.v] == [b.v];
      Declare(env, v, b.v, p2, b.w);
      var j := SimS(m, T, body, p2, env2, b.w, fuel, |env|, To(4));
      var r := Exec(m.host, body, env2, b.w, fuel);
      EndedAfter(m, st, n, j, r, fuel, p2 + Size(bc), Target(p2 + Size(bc), To(4)), |env|);
      n := n + j;
      if r.Normal? {
        PopOne(m, p2 + Size(bc), r.env, r.w);
        OneMore(m, st, n);
        n := n + 1;
        assert r.env[..|r.env| - 1] == r.env[..|env|];
      } else if r.Broke? {
        assert r.env[..|env|][..|env|] == r.env[..|env|];
      }
    }
  }

  lemma {:induction false} SendKeeps(h: Host, env: Env, w: World, sig: string, args: seq<Value>)
    ensures var a := Send(h, env, w, sig, args); a.Val? ==> a.env == env
  {
  }

  lemma {:induction false} PopOne(m: Machine, pc: nat, env: Env, w: World)
    requires env != [] && At(m.code, pc, [Op(CODE_POP)])
    ensures Step(m, Frame(pc, env, [], w)) == Frame(pc + 1, env[..|env| - 1], [], w)
  {
    var st := Frame(pc, env, [], w);
    PopStep(m, st);
    assert Drop(st, 1) == Values(env[..|env| - 1]) + [];
  }

  /** The hidden locals of a `for` loop: the sequence, and an iterator that starts out null. */
  lemma {:induction false} SimForInit(m: Machine, T: Tables, e: Expr, pc: nat, env: Env, w: World) returns (n: nat)
    requires Coded(m, T) && FitsE(e, Names(env), T) && |env| + PeakE(e) <= m.capacity && |env| + 1 < m.capacity
    requires At(m.code, pc, GenE(e, Names(env), T))
    requires At(m.code, pc + Size(GenE(e, Names(env), T)), [Op(CODE_NULL)])
    ensures var a := Eval(m.host, e, env, w);
            var st := Run(m, Frame(pc, env, [], w), n);
            if a.Err? then st.status == Aborted && st.w == a.w
            else
              var env' := a.env + [Binding(SEQ_LOCAL, a.v), Binding(ITER_LOCAL, Null)];
              && st == Frame(pc + Size(GenE(e, Names(env), T)) + 1, env', [], a.w)
              && Names(env') == Names(env) + [SEQ_LOCAL, ITER_LOCAL]
  {
    hide At, Run, Step, Size, Values, GenE, FitsE, Eval, PeakE;
    n := EvalHere(m, T, e, pc, env, w);
    var a := Eval(m.host, e, env, w);
    if a.Val? {
      NullStep(m, pc + Size(GenE(e, Names(env), T)), a.env, a.w, a.v);
      OneMore(m, Frame(pc, env, [], w), n);
      n := n + 1;
    }
  }

  /** The parts of a `for` loop's code. */
  lemma {:induction false} ForParts(m: Machine, T: Tables, s: Stmt, pc: nat, ls: seq<string>, base: nat, x: Exit)
    requires s.For? && FitsS(s, ls, T, base, x) && At(m.code, pc, GenS(s, ls, T, base, x))
    ensures var inner := ls + [SEQ_LOCAL, ITER_LOCAL];
            var cc, fc := GenE(s.e, ls, T), GenFor(s.x, s.body, inner, T);
            var p := pc + Size(cc);
            && At(m.code, pc, cc) && At(m.code, p, [Op(CODE_NULL)]) && At(m.code, p + 1, fc)
            && At(m.code, p + 1 + Size(fc), Pops(2)) && Size(GenS(s, ls, T, base, x)) == Size(cc) + 1 + Size(fc) + 2
            && FitsE(s.e, ls, T) && |ls| + 2 <= 256 && FitsS(s.body, inner + [s.x], T, |inner|, To(4))
            && SigOk(T, ITERATE) && SigOk(T, ITERATOR_VALUE) && Size(fc) < 65536
  {
    hide At, Size, GenE, GenFor, FitsE, SigOk, Pops;
    var inner := ls + [SEQ_LOCAL, ITER_LOCAL];
    var cc, fc := GenE(s.e, ls, T), GenFor(s.x, s.body, inner, T);
    AtSplit(m.code, pc, cc + [Op(CODE_NULL)] + fc, Pops(2));
    AtSplit3(m.code, pc, cc, [Op(CODE_NULL)], fc);
    BytesOne(Op(CODE_NULL));
    PopsSize(2);
  }

  lemma {:induction false} SimForS(m: Machine, T: Tables, s: Stmt, pc: nat, env: Env, w: World, fuel: nat, base: nat,
                                   x: Exit)
    returns (n: nat)
    requires s.For?
    requires Coded(m, T) && FitsS(s, Names(env), T, base, x) && At(m.code, pc, GenS(s, Names(env), T, base, x))
    requires |env| + PeakS(s) <= m.capacity && base <= |env|
    ensures var end := pc + Size(GenS(s, Names(env), T, base, x));
            Ended(m, Frame(pc, env, [], w), n, Exec(m.host, s, env, w, fuel), fuel, end, Target(end, x), base)
    decreases fuel, s, 2
  {
    hide At, Run, Step, Size, Values, GenE, GenFor, FitsE, FitsB, Eval, ExecFor, PeakE, DeltaE, LoopTail, SigOk, GenB,
         PeakB, ExecBody, Send, GenS, FitsS, Names;
    ForParts(m, T, s, pc, Names(env), base, x);
    var st, inner := Frame(pc, env, [], w), Names(env) + [SEQ_LOCAL, ITER_LOCAL];
    var cc, fc := GenE(s.e, Names(env), T), GenFor(s.x, s.body, inner, T);
    n := SimForInit(m, T, s.e, pc, env, w);
    var a := Eval(m.host, s.e, env, w);
    if a.Val? {
      var env' := a.env + [Binding(SEQ_LOCAL, a.v), Binding(ITER_LOCAL, Null)];
      var j := SimFor(m, T, s.x, s.body, pc + Size(cc) + 1, env', a.w, fuel);
      var r := ExecFor(m.host, s.x, s.body, env', a.w, fuel);
      var p1 := pc + Size(cc) + 1 + Size(fc);
      EndedAfter(m, st, n, j, r, fuel, p1, None, 0);
      n := n + j;
      if r.Normal? {
        PopsRun(m, p1, r.env, r.w, 2);
        RunAppend(m, st, n, 2);
        n := n + 2;
      }
    }
  }

  /** The hidden iterator local starts out null. */
  lemma {:induction false} NullStep(m: Machine, pc: nat, env: Env, w: World, v: Value)
    requires At(m.code, pc, [Op(CODE_NULL)]) && |env| + 1 < m.capacity
    ensures Step(m, Frame(pc, env, [v], w))
            == Frame(pc + 1, env + [Binding(SEQ_LOCAL, v), Binding(ITER_LOCAL, Null)], [], w)
  {
    StepAt(m, Frame(pc, env, [v], w), Op(CODE_NULL));
    assert Values(env) + [v] + [Null] == Values(env + [Binding(SEQ_LOCAL, v), Binding(ITER_LOCAL, Null)]) + [];
  }
}
