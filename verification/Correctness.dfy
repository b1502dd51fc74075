/** The compiler is correct: running a compiled function does what its source means, in every
    outcome, and stays within the stack reserved for it. */
module Correctness {
  import opened Wrappers
  import opened Syntax
  import opened Semantics
  import opened Grammar
  import opened Bytecode
  import opened Octets
  import opened CodeGen
  import opened CodeGenLaws
  import opened Vm
  import opened SimulationExpr
  import opened SimulationStmt
  import opened Acceptance
  import opened Printing
  import C = Compiler

  /** A compiled function as the virtual machine sees it. */
  datatype Function = Function(body: FnBody, params: seq<string>, code: seq<byte>, consts: seq<Value>,
                               sigs: seq<string>, mods: seq<string>, maxSlots: nat)

  /** All operands of a function's code fit in their bytes: jumps, slots, and places in the tables. The compiler does
      not check all of that, and a function whose operands do not fit may be miscompiled: `LongJumps.LongJump`. */
  predicate OperandsFit(f: Function) {
    var ls, T := [""] + f.params, Tables(f.consts, f.sigs, f.mods);
    match f.body
    case ExprBody(e) => FitsE(e, ls, T)
    case Defs(b) => FitsB(b, ls, T, 0, Pending)
  }

  /** Bounds within which they always do. */
  predicate WithinFormat(f: Function) {
    |f.code| < 65536 && LocalsFn(f.body, 1 + |f.params|) <= 256 && |f.sigs| <= 65536 && |f.mods| <= 65536
  }

  /** The frame of a call, as the caller sets it up: the receiver and exactly the declared arguments. */
  predicate Entered(f: Function, h: Host, frame: Env) {
    Names(frame) == [""] + f.params && h.moduleNames == f.mods
  }

  /** The machine of that call: the fiber's stack is grown to hold `maxSlots` slots above what the
      caller has already pushed. */
  function Reserved(f: Function, h: Host, frame: Env): Machine {
    Machine(f.code, f.consts, f.sigs, h, |frame| + f.maxSlots)
  }

  function Start(frame: Env, w: World): State {
    State(0, Values(frame), w, Running)
  }

  /** `f` is what the code generator makes of its body. */
  ghost predicate Generated(f: Function) {
    var ls := [""] + f.params;
    var T := Tables(f.consts, f.sigs, f.mods);
    && KnownFn(f.body, ls, T) && f.code == Bytes(GenFn(f.body, ls, T))
    && f.maxSlots == 1 + PeakFn(f.body) && |f.consts| <= 65536
  }

  /** `n` turns of the interpreter show the outcome `r`. */
  ghost predicate Shows(m: Machine, st: State, n: nat, r: Outcome, fuel: nat) {
    var st' := Run(m, st, n);
    match r
    case Returned(v, w) => st'.status == Finished(v) && st'.w == w
    case Failed(w) => st'.status == Aborted && st'.w == w
    case Timeout => st'.status == Running && n >= fuel
    case _ => false
  }

  lemma {:induction false} WithinFits(f: Function)
    requires Generated(f) && WithinFormat(f)
    ensures OperandsFit(f)
  {
    hide Bytes, GenE, GenB, KnownE, KnownB, FitsE, FitsB, LocalsB;
    var ls, T := [""] + f.params, Tables(f.consts, f.sigs, f.mods);
    WholeCode(f.code, GenFn(f.body, ls, T));
    match f.body
    case ExprBody(e) =>
      BytesAppend(GenE(e, ls, T), [Op(CODE_RETURN), Op(CODE_END)]);
      KnownFitsE(e, ls, T);
    case Defs(b) =>
      BytesAppend(GenB(b, ls, T, 0, Pending), [Op(CODE_NULL), Op(CODE_RETURN), Op(CODE_END)]);
      KnownFitsB(b, ls, T, 0, Pending);
  }

  /** Forward: every outcome of the meaning is shown by the machine. */
  lemma {:induction false} Forward(f: Function, h: Host, frame: Env, w: World, fuel: nat) returns (n: nat)
    requires Generated(f) && OperandsFit(f) && Entered(f, h, frame)
    ensures Shows(Reserved(f, h, frame), Start(frame, w), n, Call(h, f.body, frame, w, fuel), fuel)
  {
    hide At, Run, Step, Size, Bytes, GenE, GenB, KnownE, KnownB, FitsE, FitsB, Eval, ExecBody, PeakE, PeakB, DeltaB,
         LocalsB, Values, Names;
    var m, T, ls := Reserved(f, h, frame), Tables(f.consts, f.sigs, f.mods), Names(frame);
    var st := Start(frame, w);
    StartFrame(frame, w);
    WholeCode(f.code, GenFn(f.body, ls, T));
    match f.body
    case ExprBody(e) =>
      var tail := [Op(CODE_RETURN), Op(CODE_END)];
      BytesAppend(GenE(e, ls, T), tail);
      AtSplit(f.code, 0, GenE(e, ls, T), tail);
      n := EvalHere(m, T, e, 0, frame, w);
      var a := Eval(h, e, frame, w);
      if a.Val? {
        AtFirst(f.code, Size(GenE(e, ls, T)), Op(CODE_RETURN), [Op(CODE_END)]);
        ReturnStep(m, Size(GenE(e, ls, T)), a.env, a.w, a.v);
        OneMore(m, st, n);
        n := n + 1;
      }
    case Defs(b) =>
      var code, tail := GenB(b, ls, T, 0, Pending), [Op(CODE_NULL), Op(CODE_RETURN), Op(CODE_END)];
      BytesAppend(code, tail);
      AtSplit(f.code, 0, code, tail);
      n := SimB(m, T, b, 0, frame, w, fuel, 0, Pending);
      var r := ExecBody(h, b, frame, w, fuel);
      if r.Normal? {
        BodyRoom(h, b, frame, w, fuel);
        FallOff(m, Size(code), r.env, r.w);
        RunAppend(m, st, n, 2);
        n := n + 2;
      }
  }

  lemma {:induction false} StartFrame(frame: Env, w: World)
    ensures Start(frame, w) == Frame(0, frame, [], w)
  {
    assert Values(frame) + [] == Values(frame);
  }

  lemma {:induction false} WholeCode(code: seq<byte>, ins: seq<Instr>)
    requires code == Bytes(ins)
    ensures At(code, 0, ins) && |code| == Size(ins)
  {
    assert code == [] + Bytes(ins) + [];
    BytesAt(code, [], ins, []);
  }

  lemma {:induction false} AtFirst(code: seq<byte>, pc: nat, i: Instr, rest: seq<Instr>)
    requires At(code, pc, [i] + rest)
    ensures At(code, pc, [i])
  {
    AtSplit(code, pc, [i], rest);
  }

  /** The variables of a body at its end are within its peak. */
  lemma {:induction false} BodyRoom(h: Host, b: Body, frame: Env, w: World, fuel: nat)
    ensures var r := ExecBody(h, b, frame, w, fuel);
            r.Normal? ==> |r.env| == |frame| + |Declared(b)| && |Declared(b)| <= DeltaB(b)
  {
    var r := ExecBody(h, b, frame, w, fuel);
    if r.Normal? {
      assert |Names(r.env)| == |Names(frame) + Declared(b)|;
    }
  }

  /** Falling off the end of a body returns null. */
  lemma {:induction false} FallOff(m: Machine, pc: nat, env: Env, w: World)
    requires At(m.code, pc, [Op(CODE_NULL), Op(CODE_RETURN), Op(CODE_END)]) && |env| < m.capacity
    ensures var st := Run(m, Frame(pc, env, [], w), 2); st.status == Finished(Null) && st.w == w
  {
    var st := Frame(pc, env, [], w);
    assert [Op(CODE_NULL)] + [Op(CODE_RETURN), Op(CODE_END)] == [Op(CODE_NULL), Op(CODE_RETURN), Op(CODE_END)];
    AtSplit(m.code, pc, [Op(CODE_NULL)], [Op(CODE_RETURN), Op(CODE_END)]);
    BytesOne(Op(CODE_NULL));
    AtFirst(m.code, pc + 1, Op(CODE_RETURN), [Op(CODE_END)]);
    StepAt(m, st, Op(CODE_NULL));
    assert Step(m, st) == Frame(pc + 1, env, [Null], w);
    ReturnStep(m, pc + 1, env, w, Null);
    OneMore(m, st, 0);
    OneMore(m, st, 1);
    RunNone(m, st);
  }

  // ----- The main theorem ----------------------------------------------------------------------------

  /** The machine finishes with `v`, in the world `w'`. */
  ghost predicate Finishes(m: Machine, st: State, v: Value, w': World) {
    exists n :: Run(m, st, n).status == Finished(v) && Run(m, st, n).w == w'
  }

  ghost predicate Aborts(m: Machine, st: State, w': World) {
    exists n :: Run(m, st, n).status == Aborted && Run(m, st, n).w == w'
  }

  ghost predicate RunsForever(m: Machine, st: State) {
    forall n :: Run(m, st, n).status == Running
  }

  /** What a call shows is decided by its meaning: however long the machine runs, it is still running
      or has stopped as the meaning says. In particular it never gets stuck, never executes the end
      mark and never writes past its slots. */
  lemma {:induction false} Decided(f: Function, h: Host, frame: Env, w: World, k: nat)
    requires Generated(f) && OperandsFit(f) && Entered(f, h, frame)
    ensures var st := Run(Reserved(f, h, frame), Start(frame, w), k);
            var r := Call(h, f.body, frame, w, k + 1);
            match st.status
            case Running => true
            case Finished(v) => r == Returned(v, st.w)
            case Aborted => r == Failed(st.w)
            case _ => false
  {
    hide Call, Run, Generated, OperandsFit;
    var m, st0 := Reserved(f, h, frame), Start(frame, w);
    var n := Forward(f, h, frame, w, k + 1);
    var r := Call(h, f.body, frame, w, k + 1);
    if Run(m, st0, k).status != Running {
      if r.Timeout? {
        RunningBefore(m, st0, k, n);
      } else {
        StopUnique(m, st0, k, n);
      }
    }
  }

  /** A compiled function finishes with a value exactly when its source returns it, aborts exactly when
      its source fails, with the same effects on the world, and runs forever exactly when its source
      has no outcome for any amount of fuel. */
  lemma {:induction false} CompiledMeansSource(f: Function, h: Host, frame: Env, w: World)
    requires Generated(f) && OperandsFit(f) && Entered(f, h, frame)
    ensures var m, st := Reserved(f, h, frame), Start(frame, w);
            && (forall v, w' :: Finishes(m, st, v, w') <==>
                 exists fuel :: Call(h, f.body, frame, w, fuel) == Returned(v, w'))
            && (forall w' :: Aborts(m, st, w') <==> exists fuel :: Call(h, f.body, frame, w, fuel) == Failed(w'))
            && (RunsForever(m, st) <==> forall fuel :: Call(h, f.body, frame, w, fuel) == Timeout)
            && (forall n :: Run(m, st, n).status != Overflowed && Run(m, st, n).status != Stuck)
  {
    hide Call, Run, Generated, OperandsFit;
    var m, st := Reserved(f, h, frame), Start(frame, w);
    forall n: nat
      ensures var s := Run(m, st, n);
              var r := Call(h, f.body, frame, w, n + 1);
              match s.status
              case Running => true
              case Finished(v) => r == Returned(v, s.w)
              case Aborted => r == Failed(s.w)
              case _ => false
    {
      Decided(f, h, frame, w, n);
    }
    forall fuel: nat
      ensures exists n :: Shows(m, st, n, Call(h, f.body, frame, w, fuel), fuel)
    {
      var n := Forward(f, h, frame, w, fuel);
    }
    if forall fuel :: Call(h, f.body, frame, w, fuel) == Timeout {
      forall k: nat ensures Run(m, st, k).status == Running {
        var n := Forward(f, h, frame, w, k);
        RunningBefore(m, st, k, n);
      }
    }
  }

  /** What the compiler accepts, of tokens in the fragment. */
  predicate Accepted(toks: seq<Token>, params: seq<string>, mods: seq<string>) {
    && AcceptParams(params) && ParseBlock(toks).Ok?
    && AcceptBlock(ParseBlock(toks).tree, [""] + params, 1, mods, [], 0, false)
  }

  /** Compiling tokens. For those of the fragment a function comes back exactly when they are acceptable; and it is
      the code of the tree they parse to. Names used as module variables before their definitions become such. */
  method CompileFunction(toks: seq<Token>, params: seq<string>, sigs: seq<string>, mods: seq<string>)
    returns (r: Option<Function>)
    ensures InFragment(toks) ==> (r.Some? <==> Accepted(toks, params, mods))
    ensures r.Some? ==> Accepted(toks, params, mods) && Compiled(toks, params, sigs, mods, r.value)
  {
    r := CompileTokens(toks, params, sigs, mods);
  }

  /** The function is the one compiled from these tokens. */
  ghost predicate Compiled(toks: seq<Token>, params: seq<string>, sigs: seq<string>, mods: seq<string>, f: Function) {
    && ParseBlock(toks).Ok? && f.body == ParseBlock(toks).tree
    && f.params == params && sigs <= f.sigs
    && mods <= f.mods && (forall i :: |mods| <= i < |f.mods| ==> !IsLocalName(f.mods[i]))
    && Generated(f)
  }

  method CompileTokens(toks: seq<Token>, params: seq<string>, sigs: seq<string>, mods: seq<string>)
    returns (r: Option<Function>)
    ensures r.Some? <==> Accepted(toks, params, mods)
    ensures r.Some? ==> Compiled(toks, params, sigs, mods, r.value)
  {
    hide ParseBlock, AcceptBlock, GenFn, KnownFn, C.Kept, C.LocalNames, Bytes, AcceptParams;
    var c := new C.Compiler(toks, sigs, mods);
    c.DeclareParameters(params);
    if c.hasError {
      return None;
    }
    C.ParameterScope(params);
    c.FinishBody();
    if c.hasError {
      return None;
    }
    r := Some(Function(ParseBlock(toks).tree, params, c.code, c.consts, c.sigs, mods + c.implicits, c.maxSlots));
  }

  /** An expression, printed and followed by the brace that ends a function's body, is the body of that function. */
  lemma {:induction false} PrintedBody(e: Expr)
    ensures ParseBlock(Print(e, PREC_LOWEST) + [TRightBrace]) == Ok(ExprBody(e), [])
  {
    hide ParsePrec, Print;
    var rest := [TRightBrace];
    var toks := Print(e, PREC_LOWEST) + rest;
    PrintParseRoundTrip(e, rest);
    PrintHead(e, PREC_LOWEST);
    assert toks[0] == Print(e, PREC_LOWEST)[0];
    NoBraceFirst(toks);
    assert Next(rest) == [];
  }

  lemma {:induction false} NoBraceFirst(toks: seq<Token>)
    ensures ParseExpr(toks).Ok? ==> toks != [] && toks[0] != TRightBrace
  {
    if toks == [] || toks[0] == TRightBrace {
      assert ParsePrefix(toks, true).Fail?;
      assert ParsePrec(toks, PREC_LOWEST).Fail?;
    }
  }

  /** Printing any expression with the parentheses it needs, and compiling that, gives the code of the expression. */
  method CompilePrinted(e: Expr, params: seq<string>, sigs: seq<string>,
                        mods: seq<string>) returns (r: Option<Function>)
    ensures r.Some? <==> AcceptParams(params) && AcceptBlock(ExprBody(e), [""] + params, 1, mods, [], 0, false)
    ensures r.Some? ==> r.value.body == ExprBody(e) && Generated(r.value)
  {
    PrintedBody(e);
    r := CompileTokens(Print(e, PREC_LOWEST) + [TRightBrace], params, sigs, mods);
  }
}
