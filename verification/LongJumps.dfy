/** A function whose jump is too long by one byte, which the compiler accepts. */
module LongJumps {
  import opened Syntax
  import opened Semantics
  import opened Bytecode
  import opened Octets
  import opened CodeGen
  import opened CodeGenLaws
  import opened Vm
  import opened SimulationExpr
  import opened SimulationStmt
  import opened Acceptance
  import opened Correctness

  /** `null` so many times, and then `return true`. */
  function Nulls(k: nat): Body {
    if k == 0 then StmtThen(Return(BoolLit(true)), Done) else StmtThen(ExprS(NullLit), Nulls(k - 1))
  }

  /** if (false) { null; ...; return true } */
  function Skipping(k: nat): Body {
    StmtThen(IfThen(BoolLit(false), Block(Nulls(k))), Done)
  }

  const TABLES := Tables([], [], [])

  function CodeOf(k: nat): Function {
    Function(Defs(Skipping(k)), [], Bytes(GenFn(Defs(Skipping(k)), [""], TABLES)), [], [], [],
             1 + PeakFn(Defs(Skipping(k))))
  }

  lemma {:induction false} NullsKnown(k: nat, ls: seq<string>)
    ensures KnownB(Nulls(k), ls, TABLES, false)
  {
    if k > 0 {
      NullsKnown(k - 1, ls);
      NullsAre(k);
    }
  }

  lemma {:induction false} NullsAre(k: nat)
    ensures Nulls(0) == StmtThen(Return(BoolLit(true)), Done)
    ensures k > 0 ==> Nulls(k) == StmtThen(ExprS(NullLit), Nulls(k - 1))
  {
  }

  lemma {:induction false} NullsAccepted(k: nat, ls: seq<string>, c: seq<Value>)
    ensures AcceptB(Nulls(k), ls, 1, [], c, 0, false)
  {
    NullsAre(k);
    hide Nulls;
    if k > 0 {
      NullsAccepted(k - 1, ls, c);
      assert AcceptS(ExprS(NullLit), ls, [], c, 0, false) && ConstsS(ExprS(NullLit), c) == c;
    } else {
      assert AcceptS(Return(BoolLit(true)), ls, [], c, 0, false);
    }
  }

  lemma {:induction false} NullsDeclare(k: nat)
    ensures Declared(Nulls(k)) == []
  {
    if k > 0 {
      NullsDeclare(k - 1);
      NullsAre(k);
    }
  }

  lemma {:induction false} NullsSize(k: nat, ls: seq<string>)
    ensures LenB(Nulls(k), ls, 0) == 2 * k + 2
  {
    NullsAre(k);
    hide Nulls;
    if k > 0 {
      NullsSize(k - 1, ls);
      assert LenS(ExprS(NullLit), ls, 0) == 2;
    } else {
      assert LenS(Return(BoolLit(true)), ls, 0) == 2;
    }
  }

  lemma {:induction false} NullsFit(k: nat, x: Exit)
    ensures FitsB(Nulls(k), [""], TABLES, 0, x)
  {
    hide GenB, Size;
    if k > 0 {
      NullsFit(k - 1, x);
      assert Nulls(k) == StmtThen(ExprS(NullLit), Nulls(k - 1));
    }
  }

  lemma {:induction false} NullsReturn(h: Host, k: nat, env: Env, w: World, fuel: nat)
    ensures ExecBody(h, Nulls(k), env, w, fuel) == Returned(Bool(true), w)
  {
    if k > 0 {
      NullsReturn(h, k - 1, env, w, fuel);
      assert Exec(h, ExprS(NullLit), env, w, fuel) == Normal(env, w);
    }
  }

  /** The jump over the block is as long as the block. */
  lemma {:induction false} SkippingCode(k: nat)
    ensures var block := GenB(Nulls(k), [""], TABLES, 0, Pending);
            && Size(block) == 2 * k + 2
            && GenB(Skipping(k), [""], TABLES, 0, Pending)
            == [Op(CODE_FALSE)] + [ShortOp(CODE_JUMP_IF, 2 * k + 2)] + block
  {
    hide Size, LenB, LenS, Nulls;
    NullsDeclare(k);
    NullsSize(k, [""]);
    SizeB(Nulls(k), [""], TABLES, 0, Pending);
    SkippingBlock(Nulls(k));
  }

  lemma {:induction false} SkippingBlock(b: Body)
    requires Declared(b) == []
    ensures var block := GenB(b, [""], TABLES, 0, Pending);
            GenB(StmtThen(IfThen(BoolLit(false), Block(b)), Done), [""], TABLES, 0, Pending)
              == [Op(CODE_FALSE)] + [ShortOp(CODE_JUMP_IF, Size(block))] + block
  {
    hide Size;
    var block := GenB(b, [""], TABLES, 0, Pending);
    assert GenS(Block(b), [""], TABLES, 0, Pending) == block by {
      assert Pops(0) == [] && block + [] == block;
    }
    var one := IfThen(BoolLit(false), Block(b));
    assert GenS(one, [""], TABLES, 0, Pending) == [Op(CODE_FALSE)] + [ShortOp(CODE_JUMP_IF, Size(block))] + block;
    assert GenB(StmtThen(one, Done), [""], TABLES, 0, Pending) == GenS(one, [""], TABLES, 0, Pending) + [];
  }

  /** The compiler accepts the function as long as the block has at most 65536 bytes. Skipping it returns null, and so
      does the function's code if the block has less; but with 65536 bytes the function returns what is in the block. */
  lemma {:induction false} LongJump(h: Host, frame: Env, w: World, k: nat)
    requires 2 * k + 2 <= 65536 && Entered(CodeOf(k), h, frame)
    ensures Generated(CodeOf(k)) && AcceptBlock(Defs(Skipping(k)), [""], 1, [], [], 0, false)
    ensures forall fuel :: Call(h, Defs(Skipping(k)), frame, w, fuel) == Returned(Null, w)
    ensures var v := if 2 * k + 2 < 65536 then Null else Bool(true);
            Finishes(Reserved(CodeOf(k), h, frame), Start(frame, w), v, w)
  {
    SkippingAccepted(k);
    forall fuel: nat ensures Call(h, Defs(Skipping(k)), frame, w, fuel) == Returned(Null, w) {
      SkippingReturns(h, frame, w, Nulls(k), fuel);
    }
    hide Generated, AcceptBlock, Call, Run, OperandsFit, Finishes, CodeOf;
    if 2 * k + 2 < 65536 {
      CompiledMeansSource(CodeOf(k), h, frame, w);
      assert Call(h, Defs(Skipping(k)), frame, w, 0) == Returned(Null, w);
    } else {
      FallsIn(h, frame, w, k);
    }
  }

  lemma {:induction false} SkippingReturns(h: Host, frame: Env, w: World, b: Body, fuel: nat)
    ensures Call(h, Defs(StmtThen(IfThen(BoolLit(false), Block(b)), Done)), frame, w, fuel) == Returned(Null, w)
  {
    var one := IfThen(BoolLit(false), Block(b));
    assert Eval(h, BoolLit(false), frame, w) == Val(Bool(false), frame, w);
    assert Exec(h, one, frame, w, fuel) == Normal(frame, w);
    assert ExecBody(h, Done, frame, w, fuel) == Normal(frame, w);
    assert ExecBody(h, StmtThen(one, Done), frame, w, fuel) == Normal(frame, w);
  }

  lemma {:induction false} SkippingAccepted(k: nat)
    requires 2 * k + 2 <= 65536
    ensures Generated(CodeOf(k)) && AcceptBlock(Defs(Skipping(k)), [""], 1, [], [], 0, false)
    ensures 2 * k + 2 < 65536 ==> OperandsFit(CodeOf(k))
  {
    hide Nulls, GenB, Size, LenB, Bytes, PeakB;
    hide FitsB, KnownB, LenS;
    assert [""] + CodeOf(k).params == [""] && Tables(CodeOf(k).consts, [], []) == TABLES;
    NullsKnown(k, [""]);
    NullsAccepted(k, [""], []);
    NullsDeclare(k);
    NullsSize(k, [""]);
    BlockAccepted(Nulls(k));
    BlockKnown(Nulls(k));
    assert KnownFn(CodeOf(k).body, [""], TABLES);
    if 2 * k + 2 < 65536 {
      NullsFit(k, Pending);
      SkippingCode(k);
      BlockFits(Nulls(k));
    }
  }

  lemma {:induction false} BlockAccepted(b: Body)
    requires AcceptB(b, [""], 1, [], [], 0, false) && LenB(b, [""], 0) + |Declared(b)| <= 65536
    ensures AcceptB(StmtThen(IfThen(BoolLit(false), Block(b)), Done), [""], 1, [], [], 0, false)
  {
    hide AcceptS, AcceptB, LenS, LenB;
    BlockIs(b, [""], []);
    IfAccepted(Block(b), [""], []);
    OneStatement(IfThen(BoolLit(false), Block(b)), [""], []);
  }

  lemma {:induction false} BlockIs(b: Body, ls: seq<string>, c: seq<Value>)
    ensures AcceptS(Block(b), ls, [], c, 0, false) == AcceptB(b, ls, |ls|, [], c, 0, false)
    ensures LenS(Block(b), ls, 0) == LenB(b, ls, 0) + |Declared(b)|
  {
  }

  lemma {:induction false} OneStatement(s: Stmt, ls: seq<string>, c: seq<Value>)
    requires AcceptS(s, ls, [], c, 0, false)
    ensures AcceptB(StmtThen(s, Done), ls, 1, [], c, 0, false)
  {
    hide AcceptS, ConstsS;
    assert AcceptB(Done, ls, 1, [], ConstsS(s, c), 0, false);
  }

  lemma {:induction false} IfAccepted(t: Stmt, ls: seq<string>, c: seq<Value>)
    requires AcceptS(t, ls, [], c, 0, false) && LenS(t, ls, 0) <= 65536
    ensures AcceptS(IfThen(BoolLit(false), t), ls, [], c, 0, false)
  {
    hide LenS;
    assert ConstsE(BoolLit(false), c) == c && AcceptE(BoolLit(false), ls, [], c);
  }

  lemma {:induction false} BlockKnown(b: Body)
    requires KnownB(b, [""], TABLES, false)
    ensures KnownB(StmtThen(IfThen(BoolLit(false), Block(b)), Done), [""], TABLES, false)
  {
    assert KnownS(Block(b), [""], TABLES, false);
    assert KnownS(IfThen(BoolLit(false), Block(b)), [""], TABLES, false);
  }

  lemma {:induction false} BlockFits(b: Body)
    requires Declared(b) == [] && FitsB(b, [""], TABLES, 0, Pending)
    requires Size(GenB(b, [""], TABLES, 0, Pending)) < 65536
    ensures FitsB(StmtThen(IfThen(BoolLit(false), Block(b)), Done), [""], TABLES, 0, Pending)
  {
    BlockCode(b);
    IfFits(Block(b), Size(GenB(b, [""], TABLES, 0, Pending)));
    hide FitsS, GenS, Size;
    assert FitsB(Done, [""], TABLES, 0, Pending) && GenB(Done, [""], TABLES, 0, Pending) == [];
    assert Past(Pending, Size(GenB(Done, [""], TABLES, 0, Pending))) == Pending;
  }

  lemma {:induction false} BlockCode(b: Body)
    requires Declared(b) == []
    ensures GenS(Block(b), [""], TABLES, 0, Pending) == GenB(b, [""], TABLES, 0, Pending)
    ensures FitsS(Block(b), [""], TABLES, 0, Pending) == FitsB(b, [""], TABLES, 0, Pending)
  {
    hide Size;
    assert Pops(0) == [] && GenB(b, [""], TABLES, 0, Pending) + [] == GenB(b, [""], TABLES, 0, Pending);
  }

  lemma {:induction false} IfFits(t: Stmt, n: nat)
    requires FitsS(t, [""], TABLES, 0, Pending) && n == Size(GenS(t, [""], TABLES, 0, Pending)) < 65536
    ensures FitsS(IfThen(BoolLit(false), t), [""], TABLES, 0, Pending)
  {
    hide Size, GenS;
    assert FitsE(BoolLit(false), [""], TABLES);
  }

  /** A distance of 65536 is written as 0. */
  lemma {:induction false} FallsIn(h: Host, frame: Env, w: World, k: nat)
    requires 2 * k + 2 == 65536 && Entered(CodeOf(k), h, frame)
    ensures Finishes(Reserved(CodeOf(k), h, frame), Start(frame, w), Bool(true), w)
  {
    hide GenB, Bytes, Size, Run, Step, PeakB, ExecBody, Values, FitsB, Nulls, At, Frame;
    var m, st := Reserved(CodeOf(k), h, frame), Start(frame, w);
    assert Names(frame) == [""];
    StartFrame(frame, w);
    CodeAt(k);
    InRoom(k);
    FallThrough(m, frame, w);
    NullsFit(k, Pending);
    var n := SimB(m, TABLES, Nulls(k), 4, frame, w, 0, 0, Pending);
    NullsReturn(h, k, frame, w, 0);
    RunAppend(m, st, 2, n);
    assert Run(m, st, 2 + n).status == Finished(Bool(true));
  }

  lemma {:induction false} CodeAt(k: nat)
    requires 2 * k + 2 == 65536
    ensures var code := CodeOf(k).code;
            && At(code, 0, [Op(CODE_FALSE)]) && At(code, 1, [ShortOp(CODE_JUMP_IF, 65536)])
            && At(code, 4, GenB(Nulls(k), [""], TABLES, 0, Pending))
  {
    hide GenB, Bytes, PeakB, Nulls, At;
    var f := CodeOf(k);
    var block := GenB(Nulls(k), [""], TABLES, 0, Pending);
    SkippingCode(k);
    WholeCode(f.code, GenFn(f.body, [""], TABLES));
    var head := [Op(CODE_FALSE)] + [ShortOp(CODE_JUMP_IF, 65536)] + block;
    AtSplit(f.code, 0, head, [Op(CODE_NULL), Op(CODE_RETURN), Op(CODE_END)]);
    AtSplit3(f.code, 0, [Op(CODE_FALSE)], [ShortOp(CODE_JUMP_IF, 65536)], block);
    BytesOne(Op(CODE_FALSE));
    BytesOne(ShortOp(CODE_JUMP_IF, 65536));
  }

  /** There is room for what the block needs. */
  lemma {:induction false} InRoom(k: nat)
    ensures 1 + PeakFn(CodeOf(k).body) >= PeakB(Nulls(k)) && 1 + PeakFn(CodeOf(k).body) >= 1
  {
    BlockRoom(Nulls(k));
  }

  lemma {:induction false} BlockRoom(b: Body)
    ensures PeakB(StmtThen(IfThen(BoolLit(false), Block(b)), Done)) >= PeakB(b)
  {
    var one := IfThen(BoolLit(false), Block(b));
    assert PeakS(Block(b)) == PeakB(b);
    assert DeltaE(BoolLit(false)) == 1;
    assert PeakS(one) >= PeakS(Block(b));
  }

  /** The jump leads to where the run would go on without it. */
  lemma {:induction false} FallThrough(m: Machine, env: Env, w: World)
    requires At(m.code, 0, [Op(CODE_FALSE)]) && At(m.code, 1, [ShortOp(CODE_JUMP_IF, 65536)]) && |env| < m.capacity
    ensures Run(m, Frame(0, env, [], w), 2) == Frame(4, env, [], w)
  {
    var st := Frame(0, env, [], w);
    StepAt(m, st, Op(CODE_FALSE));
    assert Values(env) + [] + [Bool(false)] == Values(env) + [Bool(false)];
    assert Step(m, st) == Frame(1, env, [Bool(false)], w);
    assert ShortOp(CODE_JUMP_IF, 65536) == ShortOp(CODE_JUMP_IF, 0);
    assert [] + [Bool(false)] == [Bool(false)];
    TestStep(m, 1, env, [], w, Bool(false), 0);
    OneMore(m, st, 0);
    OneMore(m, st, 1);
    RunNone(m, st);
  }
}
