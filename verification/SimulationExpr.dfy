/** Running an expression's code computes its value: forward simulation from the big-step meaning
    to the bytecode interpreter. */
module SimulationExpr {
  import opened Basics
  import opened Wrappers
  import opened Syntax
  import opened Semantics
  import opened Bytecode
  import opened Octets
  import opened CodeGen
  import opened Vm
  import opened CodeGenLaws
  import opened Shapes

  /** The machine runs code that was generated against the tables `T`. */
  ghost predicate Coded(m: Machine, T: Tables) {
    m.consts == T.consts && m.sigs == T.sigs && m.host.moduleNames == T.mods
  }

  /** The frame in scope `env` with `temps` on top of its locals. */
  function Frame(pc: nat, env: Env, temps: seq<Value>, w: World): State {
    State(pc, Values(env) + temps, w, Running)
  }

  /** Where a frame stands after an expression. */
  ghost predicate Answered(st: State, a: Answer, end: nat, temps: seq<Value>) {
    match a
    case Val(v, env, w) => st == Frame(end, env, temps + [v], w)
    case Err(w) => st.status == Aborted && st.w == w
  }

  lemma {:induction false} StepAt(m: Machine, st: State, i: Instr)
    requires st.status == Running && At(m.code, st.pc, [i]) && |i.args| == NumArguments(i.op)
    ensures Step(m, st) == Act(m, st, i.op, i.args, st.pc + 1 + |i.args|)
  {
    hide Act;
  }

  lemma {:induction false} OneMore(m: Machine, st: State, n: nat)
    ensures Run(m, st, n + 1) == Step(m, Run(m, st, n))
  {
    RunAppend(m, st, n, 1);
    assert Run(m, Run(m, st, n), 1) == Run(m, Step(m, Run(m, st, n)), 0);
  }

  lemma {:induction false} ReadStep(m: Machine, T: Tables, pc: nat, env: Env, temps: seq<Value>, w: World, x: string)
    requires Coded(m, T) && SlotOk(Names(env), T, x)
    requires At(m.code, pc, [LoadVar(Names(env), T, x)]) && |env| + |temps| < m.capacity
    ensures Answered(Step(m, Frame(pc, env, temps, w)), ReadVar(m.host, env, w, x),
                     pc + Size([LoadVar(Names(env), T, x)]), temps)
  {
    hide Size, U16, Short, IndexOf, ActOnTop, Invoke, At, FindLast;
    var i := LoadVar(Names(env), T, x);
    var st := Frame(pc, env, temps, w);
    BytesOne(i);
    StepAt(m, st, i);
    assert Answered(Push(m, st, pc + Size([i]), ReadVar(m.host, env, w, x).v), ReadVar(m.host, env, w, x),
                    pc + Size([i]), temps) by {
      assert Values(env) + temps + [ReadVar(m.host, env, w,
                                            x).v] == Values(env) + (temps + [ReadVar(m.host, env, w, x).v]);
    }
    ShortU16(IndexOf(T.mods, x));
  }

  lemma {:induction false} WriteStep(m: Machine, T: Tables, pc: nat, env: Env, temps: seq<Value>, w: World, x: string,
                                     v: Value)
    requires Coded(m, T) && SlotOk(Names(env), T, x)
    requires At(m.code, pc, [StoreVar(Names(env), T, x)])
    ensures Answered(Step(m, Frame(pc, env, temps + [v], w)), WriteVar(m.host, env, w, x, v),
                     pc + Size([StoreVar(Names(env), T, x)]), temps)
  {
    hide Size, U16, Short, IndexOf, Invoke, Push, At, FindLast;
    var i := StoreVar(Names(env), T, x);
    BytesOne(i);
    var st := Frame(pc, env, temps + [v], w);
    StepAt(m, st, i);
    assert Top(st) == v;
    ShortU16(IndexOf(T.mods, x));
    match FindLast(Names(env), x)
    case None =>
    case Some(k) => StoredAt(env, temps, k, x, v);
  }

  lemma {:induction false} StoredAt(env: Env, temps: seq<Value>, k: nat, x: string, v: Value)
    requires k < |env|
    ensures (Values(env) + (temps + [v]))[k := v] == Values(env[k := Binding(x, v)]) + (temps + [v])
  {
  }

  lemma {:induction false} CallFetch(m: Machine, T: Tables, st: State, numArgs: nat, sig: string)
    requires st.status == Running && Coded(m, T) && SigOk(T, sig) && numArgs <= 16
    requires At(m.code, st.pc, [CallOp(T, numArgs, sig)])
    ensures Step(m, st) == Invoke(m, st, st.pc + 3, IndexOf(T.sigs, sig), numArgs + 1)
  {
    hide IndexOf, Push, Invoke, ActOnTop, Short, U16;
    StepAt(m, st, CallOp(T, numArgs, sig));
    ShortU16(IndexOf(T.sigs, sig));
  }

  /** A call takes its arguments off the stack and leaves the answer. */
  lemma {:induction false} CallStep(m: Machine, T: Tables, pc: nat, env: Env, temps: seq<Value>, w: World, sig: string,
                                    args: seq<Value>)
    requires Coded(m, T) && SigOk(T, sig) && 1 <= |args| <= 2
    requires At(m.code, pc, [CallOp(T, |args| - 1, sig)])
    ensures Answered(Step(m, Frame(pc, env, temps + args, w)), Send(m.host, env, w, sig, args), pc + 3, temps)
  {
    var st := Frame(pc, env, temps + args, w);
    CallFetch(m, T, st, |args| - 1, sig);
    InvokeSends(m, env, temps, w, pc, IndexOf(T.sigs, sig), args);
  }

  lemma {:induction false} InvokeSends(m: Machine, env: Env, temps: seq<Value>, w: World, pc: nat, k: nat,
                                       args: seq<Value>)
    requires k < |m.sigs|
    ensures Answered(Invoke(m, Frame(pc, env, temps + args, w), pc + 3, k, |args|),
                     Send(m.host, env, w, m.sigs[k], args), pc + 3, temps)
  {
    var st := Frame(pc, env, temps + args, w);
    assert st.stack[|st.stack| - |args|..] == args;
    assert Drop(st, |args|) == Values(env) + temps;
    var a := Send(m.host, env, w, m.sigs[k], args);
    if a.Val? {
      assert Values(env) + temps + [a.v] == Values(env) + (temps + [a.v]);
    }
  }

  /** Evaluate, then one more instruction that finishes the expression. */
  lemma {:induction false} Finish(m: Machine, st: State, n: nat, mid: State, a: Answer, end: nat, temps: seq<Value>)
    requires Run(m, st, n) == mid && Answered(Step(m, mid), a, end, temps)
    ensures Answered(Run(m, st, n + 1), a, end, temps)
  {
    OneMore(m, st, n);
  }

  /** A push of a value. */
  lemma {:induction false} PushStep(m: Machine, pc: nat, env: Env, temps: seq<Value>, w: World, i: Instr, v: Value)
    requires |env| + |temps| < m.capacity
    requires Step(m, Frame(pc, env, temps, w)) == Push(m, Frame(pc, env, temps, w), pc + Size([i]), v)
    ensures Answered(Run(m, Frame(pc, env, temps, w), 1), Val(v, env, w), pc + Size([i]), temps)
  {
    OneMore(m, Frame(pc, env, temps, w), 0);
    assert Values(env) + temps + [v] == Values(env) + (temps + [v]);
  }

  lemma {:induction false} LitStep(m: Machine, pc: nat, env: Env, temps: seq<Value>, w: World, v: Value)
    requires |env| + |temps| < m.capacity && v in m.consts && IndexOf(m.consts, v) < 65536
    requires At(m.code, pc, [ShortOp(CODE_CONSTANT, IndexOf(m.consts, v))])
    ensures Answered(Run(m, Frame(pc, env, temps, w), 1), Val(v, env, w),
                     pc + Size([ShortOp(CODE_CONSTANT, IndexOf(m.consts, v))]), temps)
  {
    hide IndexOf, U16, Short, ActOnTop, Invoke, Push, At, Size;
    var k := IndexOf(m.consts, v);
    var i := ShortOp(CODE_CONSTANT, k);
    BytesOne(i);
    StepAt(m, Frame(pc, env, temps, w), i);
    ShortU16(k);
    PushStep(m, pc, env, temps, w, i, v);
  }

  /** Literals and variables take one instruction. */
  lemma {:induction false} SimLeaf(m: Machine, T: Tables, e: Expr, pc: nat, env: Env, temps: seq<Value>, w: World)
    requires e.NullLit? || e.BoolLit? || e.Lit? || e.Name?
    requires Coded(m, T) && FitsE(e, Names(env), T) && At(m.code, pc, GenE(e, Names(env), T))
    requires |env| + |temps| < m.capacity
    ensures Answered(Run(m, Frame(pc, env, temps, w), 1), Eval(m.host, e, env, w),
                     pc + Size(GenE(e, Names(env), T)), temps)
  {
    hide Run, Values, IndexOf, LoadVar, ReadVar, SlotOk, Size;
    var st := Frame(pc, env, temps, w);
    match e
    case Lit(v) =>
      LitStep(m, pc, env, temps, w, v);
    case Name(x) =>
      ReadStep(m, T, pc, env, temps, w, x);
      OneMore(m, st, 0);
      assert Run(m, st, 0) == st by { RunNone(m, st); }
    case NullLit =>
      BytesOne(Op(CODE_NULL));
      StepAt(m, st, Op(CODE_NULL));
      PushStep(m, pc, env, temps, w, Op(CODE_NULL), Null);
    case BoolLit(b) =>
      var i := Op(if b then CODE_TRUE else CODE_FALSE);
      BytesOne(i);
      StepAt(m, st, i);
      PushStep(m, pc, env, temps, w, i, Bool(b));
  }

  lemma {:induction false} RunNone(m: Machine, st: State)
    ensures Run(m, st, 0) == st
  {
  }

  /** The forward simulation for expressions: from any frame with room for the expression's peak,
      its code ends with the value on top and the locals and world as the meaning says, or aborts
      exactly when the meaning is a runtime error. */
  lemma {:induction false} SimE(m: Machine, T: Tables, e: Expr, pc: nat, env: Env, temps: seq<Value>, w: World)
    returns (n: nat)
    requires Coded(m, T) && FitsE(e, Names(env), T) && At(m.code, pc, GenE(e, Names(env), T))
    requires |env| + |temps| + PeakE(e) <= m.capacity
    ensures Answered(Run(m, Frame(pc, env, temps, w), n), Eval(m.host, e, env, w),
                     pc + Size(GenE(e, Names(env), T)), temps)
    decreases e, 2
  {
    hide At, Run, Size, Frame, Answered, GenE, FitsE, Eval, Names;
    match e
    case NullLit => SimLeaf(m, T, e, pc, env, temps, w); n := 1;
    case BoolLit(_) => SimLeaf(m, T, e, pc, env, temps, w); n := 1;
    case Lit(_) => SimLeaf(m, T, e, pc, env, temps, w); n := 1;
    case Name(_) => SimLeaf(m, T, e, pc, env, temps, w); n := 1;
    case Assign(_, _) => n := SimStore(m, T, e, pc, env, temps, w);
    case Unary(_, _) => n := SimUnary(m, T, e, pc, env, temps, w);
    case Getter(_, _) => n := SimGetter(m, T, e, pc, env, temps, w);
    case Infix(_, _, _) => n := SimInfix(m, T, e, pc, env, temps, w);
    case Setter(_, _, _) => n := SimSetter(m, T, e, pc, env, temps, w);
    case And(_, _) => n := SimAnd(m, T, e, pc, env, temps, w);
    case Or(_, _) => n := SimOr(m, T, e, pc, env, temps, w);
    case Cond(_, _, _) => n := SimChoice(m, T, e, pc, env, temps, w);
  }

  lemma {:induction false} SimStore(m: Machine, T: Tables, e: Expr, pc: nat, env: Env, temps: seq<Value>, w: World)
    returns (n: nat)
    requires e.Assign?
    requires Coded(m, T) && FitsE(e, Names(env), T) && At(m.code, pc, GenE(e, Names(env), T))
    requires |env| + |temps| + PeakE(e) <= m.capacity
    ensures Answered(Run(m, Frame(pc, env, temps, w), n), Eval(m.host, e, env, w),
                     pc + Size(GenE(e, Names(env), T)), temps)
    decreases e, 1
  {
    hide At, Run, Values, IndexOf, Size, LoadVar, StoreVar, SlotOk, SigOk, ReadVar, WriteVar, Frame, Answered, Send,
         Fork;
    n := SimAssign(m, T, e, e.name, e.e, pc, env, temps, w);
  }

  lemma {:induction false} SimUnary(m: Machine, T: Tables, e: Expr, pc: nat, env: Env, temps: seq<Value>, w: World)
    returns (n: nat)
    requires e.Unary?
    requires Coded(m, T) && FitsE(e, Names(env), T) && At(m.code, pc, GenE(e, Names(env), T))
    requires |env| + |temps| + PeakE(e) <= m.capacity
    ensures Answered(Run(m, Frame(pc, env, temps, w), n), Eval(m.host, e, env, w),
                     pc + Size(GenE(e, Names(env), T)), temps)
    decreases e, 1
  {
    hide At, Run, Values, IndexOf, Size, LoadVar, StoreVar, SlotOk, SigOk, ReadVar, WriteVar, Frame, Answered, Send,
         Fork, UnName;
    n := SimCall1(m, T, e, e.e, UnName(e.op), pc, env, temps, w);
  }

  lemma {:induction false} SimGetter(m: Machine, T: Tables, e: Expr, pc: nat, env: Env, temps: seq<Value>, w: World)
    returns (n: nat)
    requires e.Getter?
    requires Coded(m, T) && FitsE(e, Names(env), T) && At(m.code, pc, GenE(e, Names(env), T))
    requires |env| + |temps| + PeakE(e) <= m.capacity
    ensures Answered(Run(m, Frame(pc, env, temps, w), n), Eval(m.host, e, env, w),
                     pc + Size(GenE(e, Names(env), T)), temps)
    decreases e, 1
  {
    hide At, Run, Values, IndexOf, Size, LoadVar, StoreVar, SlotOk, SigOk, ReadVar, WriteVar, Frame, Answered, Send,
         Fork;
    n := SimCall1(m, T, e, e.recv, e.method_, pc, env, temps, w);
  }

  lemma {:induction false} SimInfix(m: Machine, T: Tables, e: Expr, pc: nat, env: Env, temps: seq<Value>, w: World)
    returns (n: nat)
    requires e.Infix?
    requires Coded(m, T) && FitsE(e, Names(env), T) && At(m.code, pc, GenE(e, Names(env), T))
    requires |env| + |temps| + PeakE(e) <= m.capacity
    ensures Answered(Run(m, Frame(pc, env, temps, w), n), Eval(m.host, e, env, w),
                     pc + Size(GenE(e, Names(env), T)), temps)
    decreases e, 1
  {
    hide At, Run, Step, Values, Size, GenE, FitsE, Eval, PeakE, DeltaE, Answered, Send, Fork, Max, SigOk, CallOp,
         InfixSig, SetterSig, ShortOp;
    InfixCode(e.bop, e.l, e.r, Names(env), T);
    InfixFits(e.bop, e.l, e.r, Names(env), T);
    InfixSlots(e.bop, e.l, e.r);
    InfixEval(e.bop, e.l, e.r, m.host, env, w);
    n := SimCall2(m, T, e, e.l, e.r, InfixSig(e.bop), pc, env, temps, w);
  }

  lemma {:induction false} SimSetter(m: Machine, T: Tables, e: Expr, pc: nat, env: Env, temps: seq<Value>, w: World)
    returns (n: nat)
    requires e.Setter?
    requires Coded(m, T) && FitsE(e, Names(env), T) && At(m.code, pc, GenE(e, Names(env), T))
    requires |env| + |temps| + PeakE(e) <= m.capacity
    ensures Answered(Run(m, Frame(pc, env, temps, w), n), Eval(m.host, e, env, w),
                     pc + Size(GenE(e, Names(env), T)), temps)
    decreases e, 1
  {
    hide At, Run, Step, Values, Size, GenE, FitsE, Eval, PeakE, DeltaE, Answered, Send, Fork, Max, SigOk, CallOp,
         InfixSig, SetterSig, ShortOp;
    SetterCode(e.method_, e.recv, e.e, Names(env), T);
    SetterFits(e.method_, e.recv, e.e, Names(env), T);
    SetterSlots(e.method_, e.recv, e.e);
    SetterEval(e.method_, e.recv, e.e, m.host, env, w);
    n := SimCall2(m, T, e, e.recv, e.e, SetterSig(e.method_), pc, env, temps, w);
  }

  lemma {:induction false} SimAnd(m: Machine, T: Tables, e: Expr, pc: nat, env: Env, temps: seq<Value>, w: World)
    returns (n: nat)
    requires e.And?
    requires Coded(m, T) && FitsE(e, Names(env), T) && At(m.code, pc, GenE(e, Names(env), T))
    requires |env| + |temps| + PeakE(e) <= m.capacity
    ensures Answered(Run(m, Frame(pc, env, temps, w), n), Eval(m.host, e, env, w),
                     pc + Size(GenE(e, Names(env), T)), temps)
    decreases e, 1
  {
    hide At, Run, Step, Values, Size, GenE, FitsE, Eval, PeakE, DeltaE, Answered, Send, Fork, Max, SigOk, CallOp,
         InfixSig, SetterSig, ShortOp;
    AndCode(e.l, e.r, Names(env), T);
    AndFits(e.l, e.r, Names(env), T);
    AndSlots(e.l, e.r);
    AndEval(e.l, e.r, m.host, env, w);
    n := SimShort(m, T, e, e.l, e.r, CODE_AND, pc, env, temps, w);
  }

  lemma {:induction false} SimOr(m: Machine, T: Tables, e: Expr, pc: nat, env: Env, temps: seq<Value>, w: World)
    returns (n: nat)
    requires e.Or?
    requires Coded(m, T) && FitsE(e, Names(env), T) && At(m.code, pc, GenE(e, Names(env), T))
    requires |env| + |temps| + PeakE(e) <= m.capacity
    ensures Answered(Run(m, Frame(pc, env, temps, w), n), Eval(m.host, e, env, w),
                     pc + Size(GenE(e, Names(env), T)), temps)
    decreases e, 1
  {
    hide At, Run, Step, Values, Size, GenE, FitsE, Eval, PeakE, DeltaE, Answered, Send, Fork, Max, SigOk, CallOp,
         InfixSig, SetterSig, ShortOp;
    OrCode(e.l, e.r, Names(env), T);
    OrFits(e.l, e.r, Names(env), T);
    OrSlots(e.l, e.r);
    OrEval(e.l, e.r, m.host, env, w);
    n := SimShort(m, T, e, e.l, e.r, CODE_OR, pc, env, temps, w);
  }

  lemma {:induction false} SimChoice(m: Machine, T: Tables, e: Expr, pc: nat, env: Env, temps: seq<Value>, w: World)
    returns (n: nat)
    requires e.Cond?
    requires Coded(m, T) && FitsE(e, Names(env), T) && At(m.code, pc, GenE(e, Names(env), T))
    requires |env| + |temps| + PeakE(e) <= m.capacity
    ensures Answered(Run(m, Frame(pc, env, temps, w), n), Eval(m.host, e, env, w),
                     pc + Size(GenE(e, Names(env), T)), temps)
    decreases e, 1
  {
    hide At, Run, Step, Values, Size, GenE, FitsE, Eval, PeakE, DeltaE, Answered, Send, Fork, Max, SigOk, CallOp,
         InfixSig, SetterSig, ShortOp;
    CondCode(e.c, e.t, e.f, Names(env), T);
    CondFits(e.c, e.t, e.f, Names(env), T);
    CondSlots(e.c, e.t, e.f);
    CondEval(e.c, e.t, e.f, m.host, env, w);
    n := SimCond(m, T, e, e.c, e.t, e.f, pc, env, temps, w);
  }

  lemma {:induction false} SimAssign(m: Machine, T: Tables, e: Expr, x: string, e1: Expr, pc: nat, env: Env,
                                     temps: seq<Value>, w: World) returns (n: nat)
    requires e == Assign(x, e1)
    requires Coded(m, T) && FitsE(e1, Names(env), T) && SlotOk(Names(env), T, x)
    requires At(m.code, pc, GenE(e1, Names(env), T) + [StoreVar(Names(env), T, x)])
    requires |env| + |temps| + PeakE(e1) <= m.capacity
    ensures var a := Eval(m.host, e1, env, w);
            Answered(Run(m, Frame(pc, env, temps, w), n), if a.Err? then a else WriteVar(m.host, a.env, a.w, x, a.v),
                     pc + Size(GenE(e1, Names(env), T) + [StoreVar(Names(env), T, x)]), temps)
    decreases e, 0
  {
    hide Step, Run, Values, At, IndexOf, Size, GenE, FitsE, PeakE, DeltaE, Eval, StoreVar, SlotOk, WriteVar;
    var code1, store := GenE(e1, Names(env), T), StoreVar(Names(env), T, x);
    AtSplit(m.code, pc, code1, [store]);
    n := SimE(m, T, e1, pc, env, temps, w);
    var a := Eval(m.host, e1, env, w);
    if a.Val? {
      WriteStep(m, T, pc + Size(code1), a.env, temps, a.w, x, a.v);
      Finish(m, Frame(pc, env, temps, w), n, Frame(pc + Size(code1), a.env, temps + [a.v], a.w),
             WriteVar(m.host, a.env, a.w, x, a.v), pc + Size(code1) + Size([store]), temps);
      n := n + 1;
    }
  }

  lemma {:induction false} SimCall1(m: Machine, T: Tables, e: Expr, e1: Expr, sig: string, pc: nat, env: Env,
                                    temps: seq<Value>, w: World) returns (n: nat)
    requires (e.Unary? && e1 == e.e) || (e.Getter? && e1 == e.recv)
    requires Coded(m, T) && FitsE(e1, Names(env), T) && SigOk(T, sig)
    requires At(m.code, pc, GenE(e1, Names(env), T) + [CallOp(T, 0, sig)])
    requires |env| + |temps| + PeakE(e1) <= m.capacity
    ensures var a := Eval(m.host, e1, env, w);
            Answered(Run(m, Frame(pc, env, temps, w), n), if a.Err? then a else Send(m.host, a.env, a.w, sig, [a.v]),
                     pc + Size(GenE(e1, Names(env), T) + [CallOp(T, 0, sig)]), temps)
    decreases e, 0
  {
    hide Step, Run, Values, At, Send, Push, IndexOf, Size, GenE, FitsE, PeakE, DeltaE, Eval;
    var code1 := GenE(e1, Names(env), T);
    AtSplit(m.code, pc, code1, [CallOp(T, 0, sig)]);
    BytesOne(CallOp(T, 0, sig));
    n := SimE(m, T, e1, pc, env, temps, w);
    var a := Eval(m.host, e1, env, w);
    if a.Val? {
      CallStep(m, T, pc + Size(code1), a.env, temps, a.w, sig, [a.v]);
      Finish(m, Frame(pc, env, temps, w), n, Frame(pc + Size(code1), a.env, temps + [a.v], a.w),
             Send(m.host, a.env, a.w, sig, [a.v]), pc + Size(code1) + 3, temps);
      n := n + 1;
    }
  }

  lemma {:induction false} SimCall2(m: Machine, T: Tables, e: Expr, l: Expr, r: Expr, sig: string, pc: nat, env: Env,
                                    temps: seq<Value>, w: World) returns (n: nat)
    requires (e.Infix? && l == e.l && r == e.r) || (e.Setter? && l == e.recv && r == e.e)
    requires Coded(m, T) && FitsE(l, Names(env), T) && FitsE(r, Names(env), T) && SigOk(T, sig)
    requires At(m.code, pc, GenE(l, Names(env), T) + GenE(r, Names(env), T) + [CallOp(T, 1, sig)])
    requires |env| + |temps| + Max(PeakE(l), DeltaE(l) + PeakE(r)) <= m.capacity
    ensures var a := Eval(m.host, l, env, w);
            var b := if a.Err? then a else Eval(m.host, r, a.env, a.w);
            Answered(Run(m, Frame(pc, env, temps, w), n),
                     if b.Err? then b else Send(m.host, b.env, b.w, sig, [a.v, b.v]),
                     pc + Size(GenE(l, Names(env), T) + GenE(r, Names(env), T) + [CallOp(T, 1, sig)]), temps)
    decreases e, 0
  {
    hide Step, Run, Values, At, Send, Push, IndexOf, Size, GenE, FitsE, PeakE, DeltaE, Eval;
    var lc, rc, st := GenE(l, Names(env), T), GenE(r, Names(env), T), Frame(pc, env, temps, w);
    AtSplit3(m.code, pc, lc, rc, [CallOp(T, 1, sig)]);
    BytesOne(CallOp(T, 1, sig));
    n := SimE(m, T, l, pc, env, temps, w);
    var a := Eval(m.host, l, env, w);
    if a.Val? {
      var k := SimE(m, T, r, pc + Size(lc), a.env, temps + [a.v], a.w);
      RunAppend(m, st, n, k);
      n := n + k;
      var b := Eval(m.host, r, a.env, a.w);
      if b.Val? {
        assert temps + [a.v] + [b.v] == temps + [a.v, b.v];
        CallStep(m, T, pc + Size(lc) + Size(rc), b.env, temps, b.w, sig, [a.v, b.v]);
        Finish(m, st, n, Frame(pc + Size(lc) + Size(rc), b.env, temps + [a.v, b.v], b.w),
               Send(m.host, b.env, b.w, sig, [a.v, b.v]), pc + Size(lc) + Size(rc) + 3, temps);
        n := n + 1;
      }
    }
  }

  /** A conditional jump: the condition is gone, and the jump is taken when it is falsy. */
  lemma {:induction false} TestStep(m: Machine, pc: nat, env: Env, temps: seq<Value>, w: World, v: Value, d: nat)
    requires d < 65536 && At(m.code, pc, [ShortOp(CODE_JUMP_IF, d)])
    ensures Step(m, Frame(pc, env, temps + [v], w)) == Frame(if Falsy(v) then pc + 3 + d else pc + 3, env, temps, w)
  {
    var st := Frame(pc, env, temps + [v], w);
    StepAt(m, st, ShortOp(CODE_JUMP_IF, d));
    ShortU16(d);
    assert Drop(st, 1) == Values(env) + temps;
  }

  lemma {:induction false} JumpStep(m: Machine, st: State, d: nat)
    requires st.status == Running && d < 65536 && At(m.code, st.pc, [ShortOp(CODE_JUMP, d)])
    ensures Step(m, st) == st.(pc := st.pc + 3 + d)
  {
    StepAt(m, st, ShortOp(CODE_JUMP, d));
    ShortU16(d);
  }

  /** The instruction between the operands of `&&` or `||`. */
  lemma {:induction false} ShortStep(m: Machine, pc: nat, env: Env, temps: seq<Value>, w: World, v: Value, op: byte,
                                     d: nat)
    requires (op == CODE_AND || op == CODE_OR) && d < 65536 && At(m.code, pc, [ShortOp(op, d)])
    ensures Step(m, Frame(pc, env, temps + [v], w)) ==
            if Falsy(v) == (op == CODE_AND) then Frame(pc + 3 + d, env, temps + [v], w) else Frame(pc + 3, env, temps,
                                                                                                   w)
  {
    var st := Frame(pc, env, temps + [v], w);
    StepAt(m, st, ShortOp(op, d));
    ShortU16(d);
    assert Drop(st, 1) == Values(env) + temps;
  }

  /** `&&` and `||`: the left value is either kept, skipping the right operand, or dropped. */
  lemma {:induction false} SimShort(m: Machine, T: Tables, e: Expr, l: Expr, r: Expr, op: byte, pc: nat, env: Env,
                                    temps: seq<Value>, w: World) returns (n: nat)
    requires (e.And? && op == CODE_AND) || (e.Or? && op == CODE_OR)
    requires e.l == l && e.r == r
    requires Coded(m, T) && FitsE(l, Names(env), T) && FitsE(r, Names(env), T) && Size(GenE(r, Names(env), T)) < 65536
    requires At(m.code, pc,
                GenE(l, Names(env), T) + [ShortOp(op, Size(GenE(r, Names(env), T)))] + GenE(r, Names(env), T))
    requires |env| + |temps| + Max(PeakE(l), DeltaE(l) - 1 + PeakE(r)) <= m.capacity
    ensures var a := Eval(m.host, l, env, w);
            Answered(Run(m, Frame(pc, env, temps, w), n),
                     if a.Err? || Falsy(a.v) == e.And? then a else Eval(m.host, r, a.env, a.w),
                     pc + Size(GenE(l, Names(env), T) + [ShortOp(op, Size(GenE(r, Names(env), T)))] + GenE(r,
                         Names(env), T)),
                     temps)
    decreases e, 0
  {
    hide Step, Run, Values, At, Send, Push, IndexOf, Size, GenE, FitsE, PeakE, DeltaE, Eval;
    var lc, rc, st := GenE(l, Names(env), T), GenE(r, Names(env), T), Frame(pc, env, temps, w);
    var i := ShortOp(op, Size(rc));
    AtSplit3(m.code, pc, lc, [i], rc);
    BytesOne(i);
    n := SimE(m, T, l, pc, env, temps, w);
    var a := Eval(m.host, l, env, w);
    if a.Val? {
      ShortStep(m, pc + Size(lc), a.env, temps, a.w, a.v, op, Size(rc));
      OneMore(m, st, n);
      n := n + 1;
      if Falsy(a.v) != e.And? {
        var k := SimE(m, T, r, pc + Size(lc) + 3, a.env, temps, a.w);
        RunAppend(m, st, n, k);
        n := n + k;
      }
    }
  }

  lemma {:induction false} SimCond(m: Machine, T: Tables, e: Expr, c: Expr, t: Expr, f: Expr, pc: nat, env: Env,
                                   temps: seq<Value>, w: World) returns (n: nat)
    requires e == Cond(c, t, f)
    requires Coded(m, T) && FitsE(c, Names(env), T) && FitsE(t, Names(env), T) && FitsE(f, Names(env), T)
    requires Size(GenE(t, Names(env), T)) + 3 < 65536 && Size(GenE(f, Names(env), T)) < 65536
    requires At(m.code, pc, GenE(c, Names(env), T) + Fork(GenE(t, Names(env), T), GenE(f, Names(env), T)))
    requires |env| + |temps| + Max(PeakE(c),
                                   Max(DeltaE(c) - 1 + PeakE(t), DeltaE(c) - 1 + DeltaE(t) + PeakE(f))) <= m.capacity
    ensures var a := Eval(m.host, c, env, w);
            Answered(Run(m, Frame(pc, env, temps, w), n),
                     if a.Err? then a
                     else if Falsy(a.v) then Eval(m.host, f, a.env, a.w) else Eval(m.host, t, a.env, a.w),
                     pc + Size(GenE(c, Names(env), T) + Fork(GenE(t, Names(env), T), GenE(f, Names(env), T))), temps)
    decreases e, 0
  {
    hide Step, Run, Values, At, Send, Push, IndexOf, Size, GenE, FitsE, PeakE, DeltaE, Eval;
    hide Fork;
    var st := Frame(pc, env, temps, w);
    var cc, tc, fc := GenE(c, Names(env), T), GenE(t, Names(env), T), GenE(f, Names(env), T);
    var p1, p2, p3 := ForkAt(m.code, pc, cc, tc, fc);
    n := SimE(m, T, c, pc, env, temps, w);
    var a := Eval(m.host, c, env, w);
    if a.Val? {
      TestStep(m, pc + Size(cc), a.env, temps, a.w, a.v, Size(tc) + 3);
      OneMore(m, st, n);
      n := n + 1;
      if Falsy(a.v) {
        var k := SimE(m, T, f, p3, a.env, temps, a.w);
        RunAppend(m, st, n, k);
        n := n + k;
      } else {
        var k := SimE(m, T, t, p1, a.env, temps, a.w);
        RunAppend(m, st, n, k);
        n := n + k;
        var b := Eval(m.host, t, a.env, a.w);
        if b.Val? {
          JumpStep(m, Frame(p2, b.env, temps + [b.v], b.w), Size(fc));
          OneMore(m, st, n);
          n := n + 1;
        }
      }
    }
  }

  /** Where the pieces of a two-way branch lie. */
  lemma {:induction false} ForkAt(code: seq<byte>, pc: nat, cc: seq<Instr>, tc: seq<Instr>, fc: seq<Instr>)
    returns (p1: nat, p2: nat, p3: nat)
    requires At(code, pc, cc + Fork(tc, fc))
    ensures p1 == pc + Size(cc) + 3 && p2 == p1 + Size(tc) && p3 == p2 + 3
    ensures pc + Size(cc + Fork(tc, fc)) == p3 + Size(fc)
    ensures At(code, pc, cc) && At(code, pc + Size(cc), [ShortOp(CODE_JUMP_IF, Size(tc) + 3)])
    ensures At(code, p1, tc) && At(code, p2, [ShortOp(CODE_JUMP, Size(fc))]) && At(code, p3, fc)
  {
    hide At, Size, ShortOp;
    var test, jump := [ShortOp(CODE_JUMP_IF, Size(tc) + 3)], [ShortOp(CODE_JUMP, Size(fc))];
    ShortSize(CODE_JUMP_IF, Size(tc) + 3);
    ShortSize(CODE_JUMP, Size(fc));
    AtSplit(code, pc, cc, Fork(tc, fc));
    AtSplit3(code, pc + Size(cc), test, tc, jump + fc);
    AtSplit(code, pc + Size(cc) + 3 + Size(tc), jump, fc);
    p1 := pc + Size(cc) + 3;
    p2 := p1 + Size(tc);
    p3 := p2 + 3;
  }
}
