/** What each binary construct unfolds to, one function at a time. */
module Shapes {
  import opened Basics
  import opened Wrappers
  import opened Syntax
  import opened Semantics
  import opened Bytecode
  import opened CodeGen
  import opened CodeGenLaws

  lemma {:induction false} InfixCode(op: BinOp, l: Expr, r: Expr, ls: seq<string>, T: Tables)
    ensures KnownE(Infix(op, l, r), ls, T) <==> KnownE(l, ls, T) && KnownE(r, ls, T) && InfixSig(op) in T.sigs
    ensures GenE(Infix(op, l, r), ls, T) == GenE(l, ls, T) + GenE(r, ls, T) + [CallOp(T, 1, InfixSig(op))]
  {
    hide Size, ShortOp, Fork, CallOp, InfixSig, SetterSig;
  }

  lemma {:induction false} InfixFits(op: BinOp, l: Expr, r: Expr, ls: seq<string>, T: Tables)
    ensures FitsE(Infix(op, l, r), ls, T) <==> FitsE(l, ls, T) && FitsE(r, ls, T) && SigOk(T, InfixSig(op))
  {
    hide Size, GenE, SigOk, InfixSig, SetterSig;
  }

  lemma {:induction false} InfixSlots(op: BinOp, l: Expr, r: Expr)
    ensures DeltaE(Infix(op, l, r)) == DeltaE(l) + DeltaE(r) - 1
    ensures PeakE(Infix(op, l, r)) == Max(PeakE(l), DeltaE(l) + PeakE(r))
  {
    hide Max;
  }

  lemma {:induction false} InfixEval(op: BinOp, l: Expr, r: Expr, h: Host, env: Env, w: World)
    ensures var a := Eval(h, l, env, w);
            Eval(h, Infix(op, l, r), env, w) == (if a.Err? then a else
               var b := Eval(h, r, a.env, a.w);
               if b.Err? then b else Send(h, b.env, b.w, InfixSig(op), [a.v, b.v]))
  {
    hide Send, InfixSig, SetterSig, Names, ReadVar, WriteVar, Falsy;
  }

  lemma {:induction false} SetterCode(name: string, l: Expr, r: Expr, ls: seq<string>, T: Tables)
    ensures KnownE(Setter(l, name, r), ls, T) <==> KnownE(l, ls, T) && KnownE(r, ls, T) && SetterSig(name) in T.sigs
    ensures GenE(Setter(l, name, r), ls, T) == GenE(l, ls, T) + GenE(r, ls, T) + [CallOp(T, 1, SetterSig(name))]
  {
    hide Size, ShortOp, Fork, CallOp, InfixSig, SetterSig;
  }

  lemma {:induction false} SetterFits(name: string, l: Expr, r: Expr, ls: seq<string>, T: Tables)
    ensures FitsE(Setter(l, name, r), ls, T) <==> FitsE(l, ls, T) && FitsE(r, ls, T) && SigOk(T, SetterSig(name))
  {
    hide Size, GenE, SigOk, InfixSig, SetterSig;
  }

  lemma {:induction false} SetterSlots(name: string, l: Expr, r: Expr)
    ensures DeltaE(Setter(l, name, r)) == DeltaE(l) + DeltaE(r) - 1
    ensures PeakE(Setter(l, name, r)) == Max(PeakE(l), DeltaE(l) + PeakE(r))
  {
    hide Max;
  }

  lemma {:induction false} SetterEval(name: string, l: Expr, r: Expr, h: Host, env: Env, w: World)
    ensures var a := Eval(h, l, env, w);
            Eval(h, Setter(l, name, r), env, w) == (if a.Err? then a else
               var b := Eval(h, r, a.env, a.w);
               if b.Err? then b else Send(h, b.env, b.w, SetterSig(name), [a.v, b.v]))
  {
    hide Send, InfixSig, SetterSig, Names, ReadVar, WriteVar, Falsy;
  }

  lemma {:induction false} AndCode(l: Expr, r: Expr, ls: seq<string>, T: Tables)
    ensures KnownE(And(l, r), ls, T) <==> KnownE(l, ls, T) && KnownE(r, ls, T)
    ensures GenE(And(l, r), ls, T) == GenE(l, ls, T) + [ShortOp(CODE_AND, Size(GenE(r, ls, T)))] + GenE(r, ls, T)
  {
    hide Size, ShortOp, Fork, CallOp, InfixSig, SetterSig;
  }

  lemma {:induction false} AndFits(l: Expr, r: Expr, ls: seq<string>, T: Tables)
    ensures FitsE(And(l, r), ls, T) <==> FitsE(l, ls, T) && FitsE(r, ls, T) && Size(GenE(r, ls, T)) < 65536
  {
    hide Size, GenE, SigOk, InfixSig, SetterSig;
  }

  lemma {:induction false} AndSlots(l: Expr, r: Expr)
    ensures DeltaE(And(l, r)) == DeltaE(l) - 1 + DeltaE(r)
    ensures PeakE(And(l, r)) == Max(PeakE(l), DeltaE(l) - 1 + PeakE(r))
  {
    hide Max;
  }

  lemma {:induction false} AndEval(l: Expr, r: Expr, h: Host, env: Env, w: World)
    ensures var a := Eval(h, l, env, w);
            Eval(h, And(l, r), env, w) == (if a.Err? then a else if Falsy(a.v) then a else Eval(h, r, a.env, a.w))
  {
    hide Send, InfixSig, SetterSig, Names, ReadVar, WriteVar, Falsy;
  }

  lemma {:induction false} OrCode(l: Expr, r: Expr, ls: seq<string>, T: Tables)
    ensures KnownE(Or(l, r), ls, T) <==> KnownE(l, ls, T) && KnownE(r, ls, T)
    ensures GenE(Or(l, r), ls, T) == GenE(l, ls, T) + [ShortOp(CODE_OR, Size(GenE(r, ls, T)))] + GenE(r, ls, T)
  {
    hide Size, ShortOp, Fork, CallOp, InfixSig, SetterSig;
  }

  lemma {:induction false} OrFits(l: Expr, r: Expr, ls: seq<string>, T: Tables)
    ensures FitsE(Or(l, r), ls, T) <==> FitsE(l, ls, T) && FitsE(r, ls, T) && Size(GenE(r, ls, T)) < 65536
  {
    hide Size, GenE, SigOk, InfixSig, SetterSig;
  }

  lemma {:induction false} OrSlots(l: Expr, r: Expr)
    ensures DeltaE(Or(l, r)) == DeltaE(l) - 1 + DeltaE(r)
    ensures PeakE(Or(l, r)) == Max(PeakE(l), DeltaE(l) - 1 + PeakE(r))
  {
    hide Max;
  }

  lemma {:induction false} OrEval(l: Expr, r: Expr, h: Host, env: Env, w: World)
    ensures var a := Eval(h, l, env, w);
            Eval(h, Or(l, r), env, w) == (if a.Err? then a else if Falsy(a.v) then Eval(h, r, a.env, a.w) else a)
  {
    hide Send, InfixSig, SetterSig, Names, ReadVar, WriteVar, Falsy;
  }

  lemma {:induction false} CondCode(c: Expr, t: Expr, f: Expr, ls: seq<string>, T: Tables)
    ensures KnownE(Cond(c, t, f), ls, T) <==> KnownE(c, ls, T) && KnownE(t, ls, T) && KnownE(f, ls, T)
    ensures GenE(Cond(c, t, f), ls, T) == GenE(c, ls, T) + Fork(GenE(t, ls, T), GenE(f, ls, T))
  {
    hide Size, ShortOp, Fork, CallOp, InfixSig, SetterSig;
  }

  lemma {:induction false} CondFits(c: Expr, t: Expr, f: Expr, ls: seq<string>, T: Tables)
    ensures FitsE(Cond(c, t, f), ls, T) 
            <==> FitsE(c, ls, T) && FitsE(t, ls, T) && FitsE(f, ls, T)
                 && Size(GenE(t, ls, T)) + 3 < 65536 && Size(GenE(f, ls, T)) < 65536
  {
    hide Size, GenE, SigOk, InfixSig, SetterSig;
  }

  lemma {:induction false} CondSlots(c: Expr, t: Expr, f: Expr)
    ensures DeltaE(Cond(c, t, f)) == DeltaE(c) - 1 + DeltaE(t) + DeltaE(f)
    ensures PeakE(Cond(c, t, f)) == Max(PeakE(c), Max(DeltaE(c) - 1 + PeakE(t), DeltaE(c) - 1 + DeltaE(t) + PeakE(f)))
  {
    hide Max;
  }

  lemma {:induction false} CondEval(c: Expr, t: Expr, f: Expr, h: Host, env: Env, w: World)
    ensures var a := Eval(h, c, env, w);
            Eval(h, Cond(c, t, f), env,
                 w) == (if a.Err? then a else if Falsy(a.v) then Eval(h, f, a.env, a.w) else Eval(h, t, a.env, a.w))
  {
    hide Send, InfixSig, SetterSig, Names, ReadVar, WriteVar, Falsy;
  }
}
