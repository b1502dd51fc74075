/** Which values make a condition fail, value by value: in what expressions and statements mean, and in the machine. */
module Truth {
  import opened Wrappers
  import opened Syntax
  import opened Semantics
  import opened Bytecode
  import opened Octets
  import opened Vm

  /** After a condition that is null or false, `&&` has that value, and the other alternatives are taken. */
  lemma {:induction false} FailsOnNullAndFalse(h: Host, c: Expr, e: Expr, f: Expr, env: Env, w: World, v: Value,
                                               env1: Env, w1: World)
    requires Eval(h, c, env, w) == Val(v, env1, w1) && (v == Null || v == Bool(false))
    ensures Eval(h, And(c, e), env, w) == Val(v, env1, w1)
    ensures Eval(h, Or(c, e), env, w) == Eval(h, e, env1, w1)
    ensures Eval(h, Cond(c, e, f), env, w) == Eval(h, f, env1, w1)
  {
  }

  /** Any other value holds: true, every number, zero included, and every object. */
  lemma {:induction false} HoldsOnOthers(h: Host, c: Expr, e: Expr, f: Expr, env: Env, w: World, v: Value, env1: Env,
                                         w1: World)
    requires Eval(h, c, env, w) == Val(v, env1, w1) && (v == Bool(true) || v.Num? || v.Obj?)
    ensures Eval(h, And(c, e), env, w) == Eval(h, e, env1, w1)
    ensures Eval(h, Or(c, e), env, w) == Val(v, env1, w1)
    ensures Eval(h, Cond(c, e, f), env, w) == Eval(h, e, env1, w1)
  {
  }

  lemma {:induction false} StatementsFail(h: Host, c: Expr, s: Stmt, t: Stmt, env: Env, w: World, fuel: nat, v: Value,
                                          env1: Env, w1: World)
    requires Eval(h, c, env, w) == Val(v, env1, w1) && (v == Null || v == Bool(false))
    ensures Exec(h, IfThen(c, s), env, w, fuel) == Normal(env1, w1)
    ensures Exec(h, IfElse(c, s, t), env, w, fuel) == Exec(h, t, env1, w1, fuel)
    ensures Exec(h, While(c, s), env, w, fuel) == Normal(env1, w1)
  {
  }

  /** A loop whose condition holds runs its body and then, with less fuel, itself. */
  lemma {:induction false} StatementsHold(h: Host, c: Expr, s: Stmt, t: Stmt, env: Env, w: World, fuel: nat, v: Value,
                                          env1: Env, w1: World)
    requires Eval(h, c, env, w) == Val(v, env1, w1) && (v == Bool(true) || v.Num? || v.Obj?)
    ensures Exec(h, IfThen(c, s), env, w, fuel) == Exec(h, s, env1, w1, fuel)
    ensures Exec(h, IfElse(c, s, t), env, w, fuel) == Exec(h, s, env1, w1, fuel)
    ensures match Exec(h, s, env1, w1, fuel)
            case Normal(env2, w2) =>
              Exec(h, While(c, s), env, w, fuel) ==
                if fuel == 0 then Timeout else Exec(h, While(c, s), env2, w2, fuel - 1)
            case Broke(env2, w2) => Exec(h, While(c, s), env, w, fuel) == Normal(env2, w2)
            case r => Exec(h, While(c, s), env, w, fuel) == r
  {
  }

  /** A loop over a sequence ends when the sequence's `iterate(_)` answers null or false, and only then. */
  lemma {:induction false} IterationEnds(h: Host, x: string, s: Stmt, env: Env, w: World, fuel: nat, v: Value,
                                         w1: World)
    requires |env| >= 2
    requires h.invoke(w, "iterate(_)", [env[|env| - 2].value, env[|env| - 1].value]) == (w1, Some(v))
    ensures v == Null || v == Bool(false) ==>
              ExecFor(h, x, s, env, w, fuel) ==
                Normal(env[|env| - 1 := Binding(env[|env| - 1].name, v)], w1)
    ensures (v == Bool(true) || v.Num? || v.Obj?) &&
            h.invoke(w1, "iteratorValue(_)", [env[|env| - 2].value, v]).1.None? ==>
              ExecFor(h, x, s, env, w, fuel) == Failed(h.invoke(w1, "iteratorValue(_)", [env[|env| - 2].value, v]).0)
  {
    hide Exec;
  }

  /** The code at the frame's place is the instruction `op` with a two-byte operand. */
  predicate Meets(m: Machine, st: State, op: byte, hi: byte, lo: byte) {
    st.status == Running && st.pc + 3 <= |m.code| && m.code[st.pc..st.pc + 3] == [op, hi, lo]
  }

  /** The three conditional instructions, by the last value on the stack: where they go, and what they leave there. */
  lemma {:induction false} JumpsOnNullAndFalse(m: Machine, st: State, op: byte, hi: byte, lo: byte, below: seq<Value>,
                                               v: Value)
    requires Meets(m, st, op, hi, lo) && st.stack == below + [v]
    requires v == Null || v == Bool(false)
    ensures op == CODE_JUMP_IF ==> Step(m, st) == State(st.pc + 3 + 256 * hi + lo, below, st.w, Running)
    ensures op == CODE_AND ==> Step(m, st) == State(st.pc + 3 + 256 * hi + lo, below + [v], st.w, Running)
    ensures op == CODE_OR ==> Step(m, st) == State(st.pc + 3, below, st.w, Running)
  {
    assert m.code[st.pc..st.pc + 3][0] == op;
    assert m.code[st.pc..st.pc + 3][1] == hi;
    assert m.code[st.pc..st.pc + 3][2] == lo;
  }

  lemma {:induction false} GoesOnOtherwise(m: Machine, st: State, op: byte, hi: byte, lo: byte, below: seq<Value>,
                                           v: Value)
    requires Meets(m, st, op, hi, lo) && st.stack == below + [v]
    requires v == Bool(true) || v.Num? || v.Obj?
    ensures op == CODE_JUMP_IF ==> Step(m, st) == State(st.pc + 3, below, st.w, Running)
    ensures op == CODE_AND ==> Step(m, st) == State(st.pc + 3, below, st.w, Running)
    ensures op == CODE_OR ==> Step(m, st) == State(st.pc + 3 + 256 * hi + lo, below + [v], st.w, Running)
  {
    assert m.code[st.pc..st.pc + 3][0] == op;
    assert m.code[st.pc..st.pc + 3][1] == hi;
    assert m.code[st.pc..st.pc + 3][2] == lo;
  }

  /** The two hidden locals of a loop have names that no name without a space in it means: in the loop's body every
      other name but that of the loop's variable means what it means outside. */
  lemma {:induction false} LoopHidesNothing(h: Host, env: Env, w: World, u: Value, i: Value, x: string, v: Value,
                                            y: string)
    requires y != x && ' ' !in y
    ensures ReadVar(h, env + [Binding(SEQ_LOCAL, u), Binding(ITER_LOCAL, i), Binding(x, v)], w, y).v
         == ReadVar(h, env, w, y).v
  {
    var hidden := [Binding(SEQ_LOCAL, u), Binding(ITER_LOCAL, i), Binding(x, v)];
    assert SEQ_LOCAL[3] == ' ' && ITER_LOCAL[4] == ' ';
    LeaveNames(env, hidden);
    assert Names(hidden) == [SEQ_LOCAL, ITER_LOCAL, x];
    LastBefore(Names(env), Names(hidden), y);
  }

  lemma {:induction false} LastBefore(names: seq<string>, more: seq<string>, y: string)
    requires y !in more
    ensures FindLast(names + more, y) == FindLast(names, y)
    decreases |more|
  {
    if more == [] {
      assert names + more == names;
    } else {
      var n := |more| - 1;
      assert (names + more)[..|names| + n] == names + more[..n];
      LastBefore(names, more[..n], y);
    }
  }
}
