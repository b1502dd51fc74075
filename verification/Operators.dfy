/** What small compiled functions do, from their tokens to what the machine finishes with: in which order operators are
    sent, under which names, and which values choose a branch. Nothing here is stated with the parser's table, with the
    names the code generator gives to operators, or with its notion of a false value. */
module Operators {
  import opened Wrappers
  import opened Syntax
  import opened Semantics
  import opened Grammar
  import opened Bytecode
  import opened CodeGen
  import opened Vm
  import opened Printing
  import opened Precedence
  import opened Truth
  import opened Correctness

  /** The method an infix operator calls: its name, with one parameter. */
  const SIGNATURES: map<BinOp, string> := map[
    DotDot := "..(_)", DotDotDot := "...(_)", Star := "*(_)", Slash := "/(_)", Percent := "%(_)", Plus := "+(_)",
    Minus := "-(_)", LtLt := "<<(_)", GtGt := ">>(_)", Pipe := "|(_)", Caret := "^(_)", Amp := "&(_)", Lt := "<(_)",
    Gt := ">(_)", LtEq := "<=(_)", GtEq := ">=(_)", EqEq := "==(_)", BangEq := "!=(_)", Is := "is(_)"]

  lemma {:induction false} SignatureIs(op: BinOp)
    ensures op in SIGNATURES && InfixSig(op) == SIGNATURES[op]
  {
  }

  /** A prefix operator calls a method without parameters. */
  const PREFIXES: map<UnOp, string> := map[Neg := "-", Not := "!", Complement := "~"]

  /** The frame of a call with three arguments. */
  function Frame3(receiver: Value, a: string, x: Value, b: string, y: Value, c: string, z: Value): Env {
    [Binding("", receiver), Binding(a, x), Binding(b, y), Binding(c, z)]
  }

  /** A compiled function of three parameters whose body is an expression, called with `frame`. */
  ghost predicate Runs3(f: Correctness.Function, toks: seq<Token>, sigs: seq<string>, mods: seq<string>, h: Host,
                        a: string, b: string, c: string) {
    && a != b && b != c && a != c
    && Compiled(toks + [TRightBrace], [a, b, c], sigs, mods, f) && OperandsFit(f) && h.moduleNames == f.mods
  }

  lemma {:induction false} BodyIs(toks: seq<Token>, e: Expr)
    requires toks != [] && toks[0] != TLine && ParseExpr(toks + [TRightBrace]) == Ok(e, [TRightBrace])
    ensures ParseBlock(toks + [TRightBrace]) == Ok(ExprBody(e), [])
  {
    hide ParseExpr;
    var all := toks + [TRightBrace];
    assert all[0] == toks[0];
    NoBraceFirst(all);
    assert Next([TRightBrace]) == [];
  }

  /** A function whose body is an expression finishes with what the expression evaluates to. */
  lemma {:induction false} FinishesWith(f: Correctness.Function, toks: seq<Token>, sigs: seq<string>, mods: seq<string>,
                                        h: Host, a: string, b: string, c: string, frame: Env, w: World, e: Expr,
                                        v: Value, w': World)
    requires Runs3(f, toks, sigs, mods, h, a, b, c) && Names(frame) == ["", a, b, c]
    requires ParseBlock(toks + [TRightBrace]) == Ok(ExprBody(e), [])
    ensures Finishes(Reserved(f, h, frame), Start(frame, w), v, w') <==>
            Eval(h, e, frame, w).Val? && Eval(h, e, frame, w).v == v && Eval(h, e, frame, w).w == w'
  {
    hide Eval, Reserved, Start, Finishes, Generated, OperandsFit, ParseBlock;
    assert [""] + [a, b, c] == ["", a, b, c];
    CompiledMeansSource(f, h, frame, w);
    var r := Call(h, ExprBody(e), frame, w, 0);
    assert forall fuel :: Call(h, f.body, frame, w, fuel) == r;
  }

  lemma {:induction false} ReadsArguments(h: Host, receiver: Value, a: string, x: Value, b: string, y: Value, c: string,
                                          z: Value, w: World)
    requires a != b && b != c && a != c
    ensures var frame := Frame3(receiver, a, x, b, y, c, z);
            && Names(frame) == ["", a, b, c]
            && Eval(h, Name(a), frame, w) == Val(x, frame, w)
            && Eval(h, Name(b), frame, w) == Val(y, frame, w)
            && Eval(h, Name(c), frame, w) == Val(z, frame, w)
  {
    var frame := Frame3(receiver, a, x, b, y, c, z);
    assert Names(frame) == ["", a, b, c];
    FindsAt(Names(frame), a, 1);
    FindsAt(Names(frame), b, 2);
    FindsAt(Names(frame), c, 3);
  }

  lemma {:induction false} FindsAt(names: seq<string>, x: string, i: nat)
    requires i < |names| && names[i] == x && forall j :: i < j < |names| ==> names[j] != x
    ensures FindLast(names, x) == Some(i)
  {
    assert x in names && names[i] == x;
  }

  /** The call of `sig` with two arguments succeeds, with the value `v`. */
  ghost predicate Gives(h: Host, w: World, sig: string, x: Value, y: Value, v: Value, w': World) {
    h.invoke(w, sig, [x, y]) == (w', Some(v))
  }

  /** Operands are evaluated from left to right; the operator is not sent if one of them fails. */
  lemma {:induction false} InfixMeans(h: Host, op: BinOp, l: Expr, r: Expr, env: Env, w: World)
    ensures match Eval(h, l, env, w)
            case Err(w') => Eval(h, Infix(op, l, r), env, w) == Err(w')
            case Val(x, env1, w1) =>
              match Eval(h, r, env1, w1)
              case Val(y, env2, w2) =>
                Eval(h, Infix(op, l, r), env, w) == Semantics.Send(h, env2, w2, InfixSig(op), [x, y])
              case Err(w') => Eval(h, Infix(op, l, r), env, w) == Err(w')
  {
    hide Semantics.Send, InfixSig;
  }

  lemma {:induction false} RightFirst(h: Host, p: BinOp, q: BinOp, l: Expr, m: Expr, r: Expr, env: Env, w: World,
                                      x: Value, y: Value, z: Value, v: Value, w': World)
    requires Eval(h, l, env, w) == Val(x, env, w)
    requires Eval(h, m, env, w) == Val(y, env, w)
    requires Eval(h, r, env, w) == Val(z, env, w)
    ensures var a := Eval(h, Infix(p, l, Infix(q, m, r)), env, w);
            (a.Val? && a.v == v && a.w == w') <==>
              exists u, w1 :: Gives(h, w, InfixSig(q), y, z, u, w1) && Gives(h, w1, InfixSig(p), x, u, v, w')
  {
    hide InfixSig, Eval;
    InfixMeans(h, q, m, r, env, w);
    var inner := Eval(h, Infix(q, m, r), env, w);
    assert inner == Semantics.Send(h, env, w, InfixSig(q), [y, z]);
    InfixMeans(h, p, l, Infix(q, m, r), env, w);
    if inner.Val? {
      assert Gives(h, w, InfixSig(q), y, z, inner.v, inner.w);
    }
  }

  lemma {:induction false} LeftFirst(h: Host, p: BinOp, q: BinOp, l: Expr, m: Expr, r: Expr, env: Env, w: World,
                                     x: Value, y: Value, z: Value, v: Value, w': World)
    requires Eval(h, l, env, w) == Val(x, env, w)
    requires Eval(h, m, env, w) == Val(y, env, w)
    requires var w1 := h.invoke(w, InfixSig(p), [x, y]).0; Eval(h, r, env, w1) == Val(z, env, w1)
    ensures var a := Eval(h, Infix(q, Infix(p, l, m), r), env, w);
            (a.Val? && a.v == v && a.w == w') <==>
              exists u, w1 :: Gives(h, w, InfixSig(p), x, y, u, w1) && Gives(h, w1, InfixSig(q), u, z, v, w')
  {
    hide InfixSig, Eval;
    var inner := Eval(h, Infix(p, l, m), env, w);
    InfixMeans(h, p, l, m, env, w);
    if inner.Val? {
      assert Gives(h, w, InfixSig(p), x, y, inner.v, inner.w);
    }
    InfixMeans(h, q, Infix(p, l, m), r, env, w);
  }

  /** A function whose body is `a p b q c`. Of its two calls, that of the operator which binds more tightly is first; of
      two that bind alike, the left one is. */
  lemma {:induction false} OperatorsInOrder(f: Correctness.Function, p: BinOp, q: BinOp, a: string, b: string,
                                            c: string, sigs: seq<string>, mods: seq<string>, h: Host, receiver: Value,
                                            x: Value, y: Value, z: Value, w: World, v: Value, w': World)
    requires Runs3(f, [TName(a), TOp(p), TName(b), TOp(q), TName(c)], sigs, mods, h, a, b, c)
    ensures p in SIGNATURES && q in SIGNATURES
    ensures var frame := Frame3(receiver, a, x, b, y, c, z);
            Finishes(Reserved(f, h, frame), Start(frame, w), v, w') <==>
            if Tighter(Send(q), Send(p)) then
              exists u, w1 :: Gives(h, w, SIGNATURES[q], y, z, u, w1) && Gives(h, w1, SIGNATURES[p], x, u, v, w')
            else
              exists u, w1 :: Gives(h, w, SIGNATURES[p], x, y, u, w1) && Gives(h, w1, SIGNATURES[q], u, z, v, w')
  {
    hide ParseExpr, ParseBlock, Compiled, OperandsFit, Tighter, Eval, Finishes, Reserved, Start, InfixSig, Gives;
    var toks := [TName(a), TOp(p), TName(b), TOp(q), TName(c)];
    var frame := Frame3(receiver, a, x, b, y, c, z);
    SignatureIs(p);
    SignatureIs(q);
    TwoOperators(Send(p), Send(q), a, b, c, [TRightBrace]);
    var e := ParseExpr(toks + [TRightBrace]).tree;
    BodyIs(toks, e);
    ReadsArguments(h, receiver, a, x, b, y, c, z, w);
    FinishesWith(f, toks, sigs, mods, h, a, b, c, frame, w, e, v, w');
    if Tighter(Send(q), Send(p)) {
      RightFirst(h, p, q, Name(a), Name(b), Name(c), frame, w, x, y, z, v, w');
    } else {
      ReadsArguments(h, receiver, a, x, b, y, c, z, h.invoke(w, InfixSig(p), [x, y]).0);
      LeftFirst(h, p, q, Name(a), Name(b), Name(c), frame, w, x, y, z, v, w');
    }
  }

  lemma {:induction false} UnaryMeans(h: Host, u: UnOp, e: Expr, env: Env, w: World)
    ensures u in PREFIXES
    ensures match Eval(h, e, env, w)
            case Val(x, env1, w1) => Eval(h, Unary(u, e), env, w) == Semantics.Send(h, env1, w1, PREFIXES[u], [x])
            case Err(w') => Eval(h, Unary(u, e), env, w) == Err(w')
  {
  }

  lemma {:induction false} GetterMeans(h: Host, name: string, e: Expr, env: Env, w: World)
    ensures match Eval(h, e, env, w)
            case Val(x, env1, w1) => Eval(h, Getter(e, name), env, w) == Semantics.Send(h, env1, w1, name, [x])
            case Err(w') => Eval(h, Getter(e, name), env, w) == Err(w')
  {
  }

  lemma {:induction false} SetterMeans(h: Host, name: string, l: Expr, r: Expr, env: Env, w: World)
    ensures match Eval(h, l, env, w)
            case Err(w') => Eval(h, Setter(l, name, r), env, w) == Err(w')
            case Val(x, env1, w1) =>
              match Eval(h, r, env1, w1)
              case Val(y, env2, w2) =>
                Eval(h, Setter(l, name, r), env, w) == Semantics.Send(h, env2, w2, name + "=(_)", [x, y])
              case Err(w') => Eval(h, Setter(l, name, r), env, w) == Err(w')
  {
  }

  /** A prefix operator is sent under its own name. */
  lemma {:induction false} PrefixSent(f: Correctness.Function, t: Token, u: UnOp, a: string, b: string, c: string,
                                      sigs: seq<string>, mods: seq<string>, h: Host, receiver: Value, x: Value,
                                      y: Value, z: Value, w: World, v: Value, w': World)
    requires IsPrefix(t, u) && Runs3(f, [t, TName(a)], sigs, mods, h, a, b, c)
    ensures u in PREFIXES
    ensures var frame := Frame3(receiver, a, x, b, y, c, z);
            Finishes(Reserved(f, h, frame), Start(frame, w), v, w') <==> h.invoke(w, PREFIXES[u], [x]) == (w', Some(v))
  {
    hide ParseExpr, ParseBlock, Compiled, OperandsFit, Eval, Finishes, Reserved, Start;
    var toks, e := [t, TName(a)], Unary(u, Name(a));
    var frame := Frame3(receiver, a, x, b, y, c, z);
    OneOperator(t, u, AndThen, a, b, a, [TRightBrace]);
    BodyIs(toks, e);
    ReadsArguments(h, receiver, a, x, b, y, c, z, w);
    FinishesWith(f, toks, sigs, mods, h, a, b, c, frame, w, e, v, w');
    UnaryMeans(h, u, Name(a), frame, w);
  }

  /** A getter is sent under its name. */
  lemma {:induction false} GetterSent(f: Correctness.Function, name: string, a: string, b: string, c: string,
                                      sigs: seq<string>, mods: seq<string>, h: Host, receiver: Value, x: Value,
                                      y: Value, z: Value, w: World, v: Value, w': World)
    requires Runs3(f, [TName(a), TDot, TName(name)], sigs, mods, h, a, b, c)
    ensures var frame := Frame3(receiver, a, x, b, y, c, z);
            Finishes(Reserved(f, h, frame), Start(frame, w), v, w') <==> h.invoke(w, name, [x]) == (w', Some(v))
  {
    hide ParseExpr, ParseBlock, Compiled, OperandsFit, Eval, Finishes, Reserved, Start;
    var toks, e := [TName(a), TDot, TName(name)], Getter(Name(a), name);
    var frame := Frame3(receiver, a, x, b, y, c, z);
    OneOperator(TBang, Not, AndThen, a, b, name, [TRightBrace]);
    BodyIs(toks, e);
    ReadsArguments(h, receiver, a, x, b, y, c, z, w);
    FinishesWith(f, toks, sigs, mods, h, a, b, c, frame, w, e, v, w');
    GetterMeans(h, name, Name(a), frame, w);
  }

  /** A setter is sent under its name followed by `=` and one parameter. */
  lemma {:induction false} SetterSent(f: Correctness.Function, name: string, a: string, b: string, c: string,
                                      sigs: seq<string>, mods: seq<string>, h: Host, receiver: Value, x: Value,
                                      y: Value, z: Value, w: World, v: Value, w': World)
    requires Runs3(f, [TName(a), TDot, TName(name), TEq, TName(b)], sigs, mods, h, a, b, c)
    ensures var frame := Frame3(receiver, a, x, b, y, c, z);
            Finishes(Reserved(f, h, frame), Start(frame, w), v, w') <==>
            h.invoke(w, name + "=(_)", [x, y]) == (w', Some(v))
  {
    hide ParseExpr, ParseBlock, Compiled, OperandsFit, Eval, Finishes, Reserved, Start;
    var toks, e := [TName(a), TDot, TName(name), TEq, TName(b)], Setter(Name(a), name, Name(b));
    var frame := Frame3(receiver, a, x, b, y, c, z);
    OneOperator(TBang, Not, AndThen, a, b, name, [TRightBrace]);
    BodyIs(toks, e);
    ReadsArguments(h, receiver, a, x, b, y, c, z, w);
    FinishesWith(f, toks, sigs, mods, h, a, b, c, frame, w, e, v, w');
    SetterMeans(h, name, Name(a), Name(b), frame, w);
  }

  lemma {:induction false} OneConditional(a: string, b: string, c: string, rest: seq<Token>)
    requires Ends(rest)
    ensures ParseExpr([TName(a), TQuestion, TName(b), TColon, TName(c)] + rest) ==
            Ok(Cond(Name(a), Name(b), Name(c)), rest)
  {
    hide Print, ParseExpr;
    AnyName(a);
    AnyName(b);
    AnyName(c);
    PrintCond(Name(a), Name(b), Name(c), PREC_LOWEST);
    ReadBack([TName(a), TQuestion, TName(b), TColon, TName(c)], Cond(Name(a), Name(b), Name(c)), rest);
  }

  /** The first argument chooses: null and false take the alternative after the `:`, any other value the one before. */
  lemma {:induction false} ConditionalChooses(f: Correctness.Function, a: string, b: string, c: string,
                                              sigs: seq<string>, mods: seq<string>, h: Host, receiver: Value, x: Value,
                                              y: Value, z: Value, w: World, v: Value, w': World)
    requires Runs3(f, [TName(a), TQuestion, TName(b), TColon, TName(c)], sigs, mods, h, a, b, c)
    ensures var frame := Frame3(receiver, a, x, b, y, c, z);
            Finishes(Reserved(f, h, frame), Start(frame, w), v, w') <==>
            w' == w && v == if x == Null || x == Bool(false) then z else y
  {
    hide ParseExpr, ParseBlock, Compiled, OperandsFit, Eval, Finishes, Reserved, Start;
    var toks, e := [TName(a), TQuestion, TName(b), TColon, TName(c)], Cond(Name(a), Name(b), Name(c));
    var frame := Frame3(receiver, a, x, b, y, c, z);
    OneConditional(a, b, c, [TRightBrace]);
    BodyIs(toks, e);
    ReadsArguments(h, receiver, a, x, b, y, c, z, w);
    FinishesWith(f, toks, sigs, mods, h, a, b, c, frame, w, e, v, w');
    if x == Null || x == Bool(false) {
      FailsOnNullAndFalse(h, Name(a), Name(b), Name(c), frame, w, x, frame, w);
    } else {
      HoldsOnOthers(h, Name(a), Name(b), Name(c), frame, w, x, frame, w);
    }
  }

  /** `&&` gives its left operand if that is null or false, and otherwise its right one. */
  lemma {:induction false} AndChooses(f: Correctness.Function, a: string, b: string, c: string, sigs: seq<string>,
                                      mods: seq<string>, h: Host, receiver: Value, x: Value, y: Value, z: Value,
                                      w: World, v: Value, w': World)
    requires Runs3(f, [TName(a), TAmpAmp, TName(b)], sigs, mods, h, a, b, c)
    ensures var frame := Frame3(receiver, a, x, b, y, c, z);
            Finishes(Reserved(f, h, frame), Start(frame, w), v, w') <==>
            w' == w && v == if x == Null || x == Bool(false) then x else y
  {
    hide ParseExpr, ParseBlock, Compiled, OperandsFit, Eval, Finishes, Reserved, Start;
    var toks, e := [TName(a), TAmpAmp, TName(b)], And(Name(a), Name(b));
    var frame := Frame3(receiver, a, x, b, y, c, z);
    OneOperator(TBang, Not, AndThen, a, b, a, [TRightBrace]);
    BodyIs(toks, e);
    ReadsArguments(h, receiver, a, x, b, y, c, z, w);
    FinishesWith(f, toks, sigs, mods, h, a, b, c, frame, w, e, v, w');
    if x == Null || x == Bool(false) {
      FailsOnNullAndFalse(h, Name(a), Name(b), Name(c), frame, w, x, frame, w);
    } else {
      HoldsOnOthers(h, Name(a), Name(b), Name(c), frame, w, x, frame, w);
    }
  }

  /** `||` gives its right operand if the left one is null or false, and otherwise the left one. */
  lemma {:induction false} OrChooses(f: Correctness.Function, a: string, b: string, c: string, sigs: seq<string>,
                                     mods: seq<string>, h: Host, receiver: Value, x: Value, y: Value, z: Value,
                                     w: World, v: Value, w': World)
    requires Runs3(f, [TName(a), TPipePipe, TName(b)], sigs, mods, h, a, b, c)
    ensures var frame := Frame3(receiver, a, x, b, y, c, z);
            Finishes(Reserved(f, h, frame), Start(frame, w), v, w') <==>
            w' == w && v == if x == Null || x == Bool(false) then y else x
  {
    hide ParseExpr, ParseBlock, Compiled, OperandsFit, Eval, Finishes, Reserved, Start;
    var toks, e := [TName(a), TPipePipe, TName(b)], Or(Name(a), Name(b));
    var frame := Frame3(receiver, a, x, b, y, c, z);
    OneOperator(TBang, Not, OrElse, a, b, a, [TRightBrace]);
    BodyIs(toks, e);
    ReadsArguments(h, receiver, a, x, b, y, c, z, w);
    FinishesWith(f, toks, sigs, mods, h, a, b, c, frame, w, e, v, w');
    if x == Null || x == Bool(false) {
      FailsOnNullAndFalse(h, Name(a), Name(b), Name(c), frame, w, x, frame, w);
    } else {
      HoldsOnOthers(h, Name(a), Name(b), Name(c), frame, w, x, frame, w);
    }
  }
}
