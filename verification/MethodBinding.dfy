/** The two walks over the bytes of a function's code, past instructions of every length: the one that ends a loop,
    and the one that binds a method to its class. */
module MethodBinding {
  import opened Bytecode
  import opened Octets
  import opened CodeGenLaws
  import opened Emission
  import opened Walking

  const MAX_FIELDS := 255

  /** A function: its code, its constants, and how many variables it closes over. The functions within it are among
      its constants. */
  datatype Fn = Fn(code: seq<byte>, constants: seq<Constant>, numUpvalues: nat)

  datatype Constant = Function(fn: Fn) | Class(id: nat) | Other(id: nat)

  // ----- Instructions of every length -----------------------------------------------------------------------

  /** The constant that the instruction's operands at `at` number. */
  function ConstantAt(args: seq<byte>, at: nat): nat
    requires at + 1 < |args|
  {
    Short(args[at], args[at + 1])
  }

  predicate IsFunction(constants: seq<Constant>, c: nat) {
    c < |constants| && constants[c].Function?
  }

  /** The operand bytes of the instruction at `ip`. Those of CODE_CLOSURE are the constant of the function loaded and
      two for each variable that closes over. */
  function GetNumArguments(code: seq<byte>, constants: seq<Constant>, ip: nat): nat
    requires ip < |code|
    requires code[ip] == CODE_CLOSURE ==> ip + 2 < |code| && IsFunction(constants, Short(code[ip + 1], code[ip + 2]))
  {
    if code[ip] == CODE_CLOSURE then 2 + 2 * constants[Short(code[ip + 1], code[ip + 2])].fn.numUpvalues
    else NumArguments(code[ip])
  }

  /** An instruction has the operands its opcode asks for. */
  predicate Shaped(constants: seq<Constant>, i: Instr) {
    if i.op == CODE_CLOSURE then
      && |i.args| >= 2 && IsFunction(constants, ConstantAt(i.args, 0))
      && |i.args| == 2 + 2 * constants[ConstantAt(i.args, 0)].fn.numUpvalues
    else
      |i.args| == NumArguments(i.op)
  }

  /** On the boundary of a shaped instruction the walk finds how long it is. */
  lemma {:induction false} StepIs(code: seq<byte>, constants: seq<Constant>, ip: nat, i: Instr)
    requires Shaped(constants, i) && ip + 1 + |i.args| <= |code| && code[ip] == i.op
             && code[ip + 1..ip + 1 + |i.args|] == i.args
    ensures code[ip] == CODE_CLOSURE ==> ip + 2 < |code| && IsFunction(constants, Short(code[ip + 1], code[ip + 2]))
    ensures GetNumArguments(code, constants, ip) == |i.args|
  {
    if i.op == CODE_CLOSURE {
      assert code[ip + 1..ip + 1 + |i.args|][0] == code[ip + 1] && code[ip + 1..ip + 1 + |i.args|][1] == code[ip + 2];
    }
  }

  // ----- The end of a loop ----------------------------------------------------------------------------------

  /** A loop body: shaped instructions, and pending breaks. */
  predicate LoopBody(constants: seq<Constant>, ins: seq<Instr>) {
    forall k :: 0 <= k < |ins| ==> if ins[k].op == CODE_END then |ins[k].args| == 2 else Shaped(constants, ins[k])
  }

  /** Every pending break of the body becomes a jump to the end of the code; nothing else changes, though operand
      bytes, of closures too, may look like pending breaks. */
  method PatchPending(code: seq<byte>, constants: seq<Constant>, body: nat, ghost before: seq<byte>,
                      ghost ins: seq<Instr>)
    returns (r: seq<byte>)
    requires code == before + Bytes(ins) && body == |before| && LoopBody(constants, ins)
    ensures r == before + Bytes(PatchBreaks(ins, 0))
  {
    hide Walked, PatchBreaks, Bytes, Patch, Size, Shaped;
    r := code;
    BytesSize(ins);
    var i := body;
    ghost var k := 0;
    WalkStart(before, ins);
    WalkEnd(before, ins, k, i, r);
    while i < |r|
      invariant k <= |ins| && |before| <= i && |r| == |code|
      invariant Walked(before, ins, k, i, r)
      invariant i >= |r| <==> k == |ins|
      decreases |ins| - k
    {
      WalkHere(before, ins, k, i, r);
      if r[i] == CODE_END {
        BreakPatched(before, ins, k, i, r);
        r := r[i := CODE_JUMP];
        r := r[..i + 1] + U16(|r| - i - 3) + r[i + 3..];
        i := i + 3;
      } else {
        StepIs(r, constants, i, ins[k]);
        StepOver(before, ins, k, i, r);
        i := i + 1 + GetNumArguments(r, constants, i);
      }
      k := k + 1;
      WalkEnd(before, ins, k, i, r);
    }
    WalkEnd(before, ins, k, i, r);
  }

  lemma {:induction false} StepOver(before: seq<byte>, ins: seq<Instr>, k: nat, i: int, code: seq<byte>)
    requires Walked(before, ins, k, i, code) && k < |ins| && ins[k].op != CODE_END
    ensures Walked(before, ins, k + 1, i + 1 + |ins[k].args|, code)
  {
    hide PatchBreaks;
    WalkHere(before, ins, k, i, code);
    PatchAt(ins, 0, k);
    var n := i + 1 + |ins[k].args|;
    assert code == code[..i] + ([ins[k].op] + ins[k].args) + code[n..];
    WalkOn(before, ins, k, i, code);
  }

  lemma {:induction false} BreakPatched(before: seq<byte>, ins: seq<Instr>, k: nat, i: int, code: seq<byte>)
    requires Walked(before, ins, k, i, code) && k < |ins| && ins[k].op == CODE_END && |ins[k].args| == 2
    ensures 0 <= i && i + 3 <= |code|
    ensures var code1 := code[i := CODE_JUMP];
            var code2 := code1[..i + 1] + U16(|code1| - i - 3) + code1[i + 3..];
            |code2| == |code| && Walked(before, ins, k + 1, i + 3, code2)
  {
    hide U16, PatchBreaks;
    WalkHere(before, ins, k, i, code);
    PatchAt(ins, 0, k);
    var rest := ins[k + 1..];
    BytesSize(rest);
    var code1 := code[i := CODE_JUMP];
    var code2 := code1[..i + 1] + U16(|code1| - i - 3) + code1[i + 3..];
    assert code2 == code[..i] + ([CODE_JUMP] + U16(Size(rest))) + code[i + 3..];
    WalkOn(before, ins, k, i, code2);
  }

  // ----- Binding --------------------------------------------------------------------------------------------

  predicate IsField(op: byte) {
    CODE_LOAD_FIELD_THIS <= op <= CODE_STORE_FIELD
  }

  predicate IsSuper(op: byte) {
    CODE_SUPER_0 <= op < CODE_JUMP
  }

  /** Finished code: shaped instructions, and CODE_END after the last one only. A function within is loaded by one
      instruction; no call of a superclass method has a function for its constant. */
  predicate Finished(fn: Fn, ins: seq<Instr>) {
    && fn.code == Bytes(ins) && ins != [] && ins[|ins| - 1] == Op(CODE_END)
    && (forall k :: 0 <= k < |ins| - 1 ==> ins[k].op != CODE_END && Shaped(fn.constants, ins[k]))
    && (forall k :: 0 <= k < |ins| - 1 && IsSuper(ins[k].op) ==>
          |ins[k].args| == 4 && ConstantAt(ins[k].args, 2) < |fn.constants|
            && !fn.constants[ConstantAt(ins[k].args, 2)].Function?)
    && (forall j, k :: 0 <= j < k < |ins| - 1 && ins[j].op == ins[k].op == CODE_CLOSURE ==>
          |ins[j].args| >= 2 && |ins[k].args| >= 2 ==> ConstantAt(ins[j].args, 0) != ConstantAt(ins[k].args, 0))
  }

  ghost predicate AllFinished(fn: Fn)
    decreases fn
  {
    (exists ins :: Finished(fn, ins)) && forall c :: 0 <= c < |fn.constants| && fn.constants[c].Function? ==>
        AllFinished(fn.constants[c].fn)
  }

  /** Fields of the class come after the inherited ones. */
  function BoundInstr(i: Instr, inherited: nat): Instr {
    if IsField(i.op) && |i.args| == 1 then Instr(i.op, [(i.args[0] + inherited) % 256]) else i
  }

  function BoundAll(ins: seq<Instr>, inherited: nat): (r: seq<Instr>)
    ensures |r| == |ins| && forall k :: 0 <= k < |ins| ==> r[k] == BoundInstr(ins[k], inherited)
  {
    seq(|ins|, k requires 0 <= k < |ins| => BoundInstr(ins[k], inherited))
  }

  /** Constant `c` is the function that one of the first `n` instructions makes a closure of. */
  predicate Loads(ins: seq<Instr>, n: nat, c: nat) {
    exists k :: 0 <= k < n && k < |ins| && LoadsAt(ins[k], c)
  }

  predicate LoadsAt(i: Instr, c: nat) {
    i.op == CODE_CLOSURE && |i.args| >= 2 && ConstantAt(i.args, 0) == c
  }

  /** Constant `c` is the superclass of one of the first `n` instructions. */
  predicate Supers(ins: seq<Instr>, n: nat, c: nat) {
    exists k :: 0 <= k < n && k < |ins| && SupersAt(ins[k], c)
  }

  predicate SupersAt(i: Instr, c: nat) {
    IsSuper(i.op) && |i.args| == 4 && ConstantAt(i.args, 2) == c
  }

  /** `r` is `fn` bound to a class that inherits so many fields: every field operand of it, and of all the functions
      within it, is moved; every call of a superclass method has the superclass. */
  ghost predicate Bound(fn: Fn, r: Fn, inherited: nat, superclass: nat)
    decreases fn
  {
    && r.numUpvalues == fn.numUpvalues && |r.constants| == |fn.constants|
    && exists ins :: Finished(fn, ins) && r.code == Bytes(BoundAll(ins, inherited))
         && forall c :: 0 <= c < |fn.constants| ==>
              if fn.constants[c].Function? && Loads(ins, |ins|, c) then
                r.constants[c].Function? && Bound(fn.constants[c].fn, r.constants[c].fn, inherited, superclass)
              else if Supers(ins, |ins|, c) then r.constants[c] == Class(superclass)
              else r.constants[c] == fn.constants[c]
  }

  /** The walk has done the first `n` instructions. */
  ghost predicate BoundSoFar(fn: Fn, ins: seq<Instr>, n: nat, code: seq<byte>, constants: seq<Constant>,
                             inherited: nat, superclass: nat)
    requires n <= |ins|
  {
    && |constants| == |fn.constants|
    && code == Bytes(BoundAll(ins[..n], inherited)) + Bytes(ins[n..])
    && AllDone(fn, ins, n, constants, inherited, superclass)
  }

  ghost predicate ConstantDone(fn: Fn, ins: seq<Instr>, n: nat, constants: seq<Constant>, c: nat, inherited: nat,
                               superclass: nat)
    requires c < |fn.constants| == |constants|
  {
    if fn.constants[c].Function? && Loads(ins, n, c) then
      constants[c].Function? && Bound(fn.constants[c].fn, constants[c].fn, inherited, superclass)
    else if Supers(ins, n, c) then constants[c] == Class(superclass)
    else constants[c] == fn.constants[c]
  }

  ghost predicate AllDone(fn: Fn, ins: seq<Instr>, n: nat, constants: seq<Constant>, inherited: nat, superclass: nat)
    requires |fn.constants| == |constants|
  {
    forall c :: 0 <= c < |fn.constants| ==> ConstantDone(fn, ins, n, constants, c, inherited, superclass)
  }

  /** Binds a method, and the functions within it, to a class. */
  method BindMethodCode(fn: Fn, inherited: nat, superclass: nat) returns (r: Fn)
    requires AllFinished(fn)
    ensures Bound(fn, r, inherited, superclass)
    decreases fn
  {
    hide Finished, Shaped, Bytes, BoundAll, AllDone, Bound, NumArguments, BoundInstr;
    ghost var ins :| Finished(fn, ins);
    var code: seq<byte>, constants := fn.code, fn.constants;
    var ip := 0;
    ghost var n := 0;
    NothingBound(fn, ins, inherited, superclass);
    while true
      invariant n < |ins| && ip == |Bytes(BoundAll(ins[..n], inherited))|
      invariant BoundSoFar(fn, ins, n, code, constants, inherited, superclass)
      decreases |ins| - n
    {
      BoundHere(fn, ins, n, ip, code, constants, inherited, superclass);
      var op := code[ip];
      if op == CODE_END {
        break;
      }
      ghost var code0, constants0 := code, constants;
      ConstantThere(fn, ins, n, code, constants, inherited, superclass);
      StepIs(code, constants, ip, ins[n]);
      var count := GetNumArguments(code, constants, ip);
      FourBytes(code, ip, ins[n]);
      if IsField(op) {
        var moved: byte := (code[ip + 1] + inherited) % 256;
        code := code[ip + 1 := moved];
        SameConstants(fn, ins, n, constants, inherited, superclass);
      } else if IsSuper(op) {
        constants := constants[Short(code[ip + 3], code[ip + 4]) := Class(superclass)];
        SuperSet(fn, ins, n, constants0, constants, inherited, superclass);
      } else if op == CODE_CLOSURE {
        var c := Short(code[ip + 1], code[ip + 2]);
        var g := BindMethodCode(constants[c].fn, inherited, superclass);
        constants := constants[c := Function(g)];
        FunctionSet(fn, ins, n, constants0, constants, inherited, superclass);
      } else {
        SameConstants(fn, ins, n, constants, inherited, superclass);
      }
      CodeOn(ins, n, ip, code0, code, inherited);
      ip := ip + 1 + count;
      n := n + 1;
    }
    r := Fn(code, constants, fn.numUpvalues);
    AllBound(fn, ins, n, code, constants, inherited, superclass);
  }

  lemma {:induction false} BoundAllSplit(a: seq<Instr>, b: seq<Instr>, inherited: nat)
    ensures BoundAll(a + b, inherited) == BoundAll(a, inherited) + BoundAll(b, inherited)
  {
  }

  lemma {:induction false} NothingBound(fn: Fn, ins: seq<Instr>, inherited: nat, superclass: nat)
    requires Finished(fn, ins)
    ensures |Bytes(BoundAll(ins[..0], inherited))| == 0 < |ins|
    ensures BoundSoFar(fn, ins, 0, fn.code, fn.constants, inherited, superclass)
  {
    assert ins[..0] == [] && ins[0..] == ins;
    assert BoundAll([], inherited) == [];
    assert [] + Bytes(ins) == Bytes(ins);
  }

  /** The walk is on the boundary of an instruction, which is as it was. */
  lemma {:induction false} BoundHere(fn: Fn, ins: seq<Instr>, n: nat, ip: nat, code: seq<byte>,
                                     constants: seq<Constant>,
                                     inherited: nat, superclass: nat)
    requires Finished(fn, ins) && n < |ins| && ip == |Bytes(BoundAll(ins[..n], inherited))|
    requires BoundSoFar(fn, ins, n, code, constants, inherited, superclass)
    ensures ip + 1 + |ins[n].args| <= |code| && code[ip] == ins[n].op && (code[ip] == CODE_END <==> n == |ins| - 1)
    ensures code[..ip] == Bytes(BoundAll(ins[..n], inherited)) && code[ip + 1..ip + 1 + |ins[n].args|] == ins[n].args
    ensures code[ip + 1 + |ins[n].args|..] == Bytes(ins[n + 1..])
  {
    hide Shaped, BoundAll, AllDone, Bytes;
    assert ins[n..] == [ins[n]] + ins[n + 1..];
    BytesAppend([ins[n]], ins[n + 1..]);
    BytesOne(ins[n]);
    HeadTail(code, Bytes(BoundAll(ins[..n], inherited)), ins[n].op, ins[n].args, Bytes(ins[n + 1..]));
  }

  /** The constant an instruction needs is still as it was. */
  lemma {:induction false} ConstantThere(fn: Fn, ins: seq<Instr>, n: nat, code: seq<byte>, constants: seq<Constant>,
                                         inherited: nat, superclass: nat)
    requires Finished(fn, ins) && n < |ins| - 1 && BoundSoFar(fn, ins, n, code, constants, inherited, superclass)
    ensures Shaped(constants, ins[n]) && ins[n].op != CODE_END
    ensures ins[n].op == CODE_CLOSURE ==>
              |ins[n].args| >= 2 && IsFunction(constants, ConstantAt(ins[n].args, 0))
              && IsFunction(fn.constants, ConstantAt(ins[n].args, 0))
              && constants[ConstantAt(ins[n].args, 0)] == fn.constants[ConstantAt(ins[n].args, 0)]
    ensures IsSuper(ins[n].op) ==> |ins[n].args| == 4 && ConstantAt(ins[n].args, 2) < |constants|
    ensures IsField(ins[n].op) ==> |ins[n].args| == 1
  {
    assert Shaped(fn.constants, ins[n]);
    if ins[n].op == CODE_CLOSURE {
      var c := ConstantAt(ins[n].args, 0);
      assert ConstantDone(fn, ins, n, constants, c, inherited, superclass);
      forall k | 0 <= k < n ensures !LoadsAt(ins[k], c) && !SupersAt(ins[k], c) {
        assert ins[k].op == CODE_CLOSURE ==> Shaped(fn.constants, ins[k]);
      }
    }
  }

  lemma {:induction false} FourBytes(code: seq<byte>, ip: nat, i: Instr)
    requires ip + 1 + |i.args| <= |code| && code[ip + 1..ip + 1 + |i.args|] == i.args
    ensures forall k :: 0 <= k < |i.args| ==> code[ip + 1 + k] == i.args[k]
  {
    forall k | 0 <= k < |i.args| ensures code[ip + 1 + k] == i.args[k] {
      assert code[ip + 1..ip + 1 + |i.args|][k] == code[ip + 1 + k];
    }
  }

  /** One instruction more has been walked over; its bytes are those of the bound one. */
  lemma {:induction false} CodeOn(ins: seq<Instr>, n: nat, ip: nat, code: seq<byte>, code': seq<byte>, inherited: nat)
    requires n < |ins| && ip + 1 + |ins[n].args| <= |code| && code[..ip] == Bytes(BoundAll(ins[..n], inherited))
    requires ip == |Bytes(BoundAll(ins[..n], inherited))| && code[ip] == ins[n].op
    requires code[ip + 1..ip + 1 + |ins[n].args|] == ins[n].args
             && code[ip + 1 + |ins[n].args|..] == Bytes(ins[n + 1..])
    requires code' == if IsField(ins[n].op)
             && |ins[n].args| == 1 then code[ip + 1 := (ins[n].args[0] + inherited) % 256] else code
    ensures code' == Bytes(BoundAll(ins[..n + 1], inherited)) + Bytes(ins[n + 1..])
    ensures ip + 1 + |ins[n].args| == |Bytes(BoundAll(ins[..n + 1], inherited))|
  {
    hide Bytes;
    var i := BoundInstr(ins[n], inherited);
    assert ins[..n + 1] == ins[..n] + [ins[n]];
    BoundAllSplit(ins[..n], [ins[n]], inherited);
    assert BoundAll([ins[n]], inherited) == [i];
    BytesAppend(BoundAll(ins[..n], inherited), [i]);
    BytesOne(i);
    hide BoundAll;
    OneChanged(code, code', ip, ins[n].op, ins[n].args, i.args);
  }

  /** The operand of an instruction has changed, or nothing. */
  lemma {:induction false} OneChanged(code: seq<byte>, code': seq<byte>, ip: nat, op: byte, args: seq<byte>,
                                      args': seq<byte>)
    requires ip + 1 + |args| <= |code| && code[ip] == op && code[ip + 1..ip + 1 + |args|] == args
    requires (args' == args && code' == code) || (|args'| == |args| == 1 && code' == code[ip + 1 := args'[0]])
    ensures code' == code[..ip] + ([op] + args') + code[ip + 1 + |args|..]
  {
  }

  /** Neither a function nor a superclass is loaded. */
  lemma {:induction false} SameConstants(fn: Fn, ins: seq<Instr>, n: nat, constants: seq<Constant>, inherited: nat,
                                         superclass: nat)
    requires n < |ins| && ins[n].op != CODE_CLOSURE && !IsSuper(ins[n].op) && |constants| == |fn.constants|
    requires AllDone(fn, ins, n, constants, inherited, superclass)
    ensures AllDone(fn, ins, n + 1, constants, inherited, superclass)
  {
    var m := n + 1;
    forall c | 0 <= c < |fn.constants| ensures ConstantDone(fn, ins, m, constants, c, inherited, superclass) {
      assert ConstantDone(fn, ins, n, constants, c, inherited, superclass);
      MoreLoads(ins, n, c);
    }
  }

  lemma {:induction false} MoreLoads(ins: seq<Instr>, n: nat, c: nat)
    requires n < |ins|
    ensures Loads(ins, n + 1, c) <==> Loads(ins, n, c) || LoadsAt(ins[n], c)
    ensures Supers(ins, n + 1, c) <==> Supers(ins, n, c) || SupersAt(ins[n], c)
  {
    if Loads(ins, n, c) {
      var k :| 0 <= k < n && LoadsAt(ins[k], c);
      assert LoadsAt(ins[k], c);
    }
    if Supers(ins, n, c) {
      var k :| 0 <= k < n && SupersAt(ins[k], c);
      assert SupersAt(ins[k], c);
    }
  }

  lemma {:induction false} SuperSet(fn: Fn, ins: seq<Instr>, n: nat, constants: seq<Constant>,
                                    constants': seq<Constant>,
                                    inherited: nat, superclass: nat)
    requires Finished(fn, ins) && n < |ins| - 1 && IsSuper(ins[n].op) && |constants| == |fn.constants|
    requires |ins[n].args| == 4 && ConstantAt(ins[n].args, 2) < |constants|
    requires constants' == constants[ConstantAt(ins[n].args, 2) := Class(superclass)]
    requires AllDone(fn, ins, n, constants, inherited, superclass)
    ensures AllDone(fn, ins, n + 1, constants', inherited, superclass)
  {
    var m := n + 1;
    forall c | 0 <= c < |fn.constants| ensures ConstantDone(fn, ins, m, constants', c, inherited, superclass) {
      assert ConstantDone(fn, ins, n, constants, c, inherited, superclass);
      MoreLoads(ins, n, c);
    }
  }

  lemma {:induction false} FunctionSet(fn: Fn, ins: seq<Instr>, n: nat, constants: seq<Constant>,
                                       constants': seq<Constant>,
                                       inherited: nat, superclass: nat)
    requires Finished(fn, ins) && n < |ins| - 1 && ins[n].op == CODE_CLOSURE && |constants| == |fn.constants|
    requires |ins[n].args| >= 2 && IsFunction(fn.constants, ConstantAt(ins[n].args, 0))
    requires var c := ConstantAt(ins[n].args, 0);
             && |constants'| == |constants| && constants' == constants[c := constants'[c]] && constants'[c].Function?
             && Bound(fn.constants[c].fn, constants'[c].fn, inherited, superclass)
    requires AllDone(fn, ins, n, constants, inherited, superclass)
    ensures AllDone(fn, ins, n + 1, constants', inherited, superclass)
  {
    hide Bound;
    var m := n + 1;
    forall c | 0 <= c < |fn.constants| ensures ConstantDone(fn, ins, m, constants', c, inherited, superclass) {
      assert ConstantDone(fn, ins, n, constants, c, inherited, superclass);
      MoreLoads(ins, n, c);
    }
  }

  lemma {:induction false} AllBound(fn: Fn, ins: seq<Instr>, n: nat, code: seq<byte>, constants: seq<Constant>,
                                    inherited: nat, superclass: nat)
    requires Finished(fn, ins) && n == |ins| - 1 && BoundSoFar(fn, ins, n, code, constants, inherited, superclass)
    ensures Bound(fn, Fn(code, constants, fn.numUpvalues), inherited, superclass)
  {
    var last := ins[n..];
    assert last == [Op(CODE_END)] && ins == ins[..n] + last;
    BoundAllSplit(ins[..n], last, inherited);
    assert BoundAll(last, inherited) == last;
    BytesAppend(BoundAll(ins[..n], inherited), last);
    forall c | 0 <= c < |fn.constants|
      ensures Loads(ins, |ins|, c) == Loads(ins, n, c) && Supers(ins, |ins|, c) == Supers(ins, n, c)
      ensures ConstantDone(fn, ins, n, constants, c, inherited, superclass)
    {
      MoreLoads(ins, n, c);
    }
  }

  // ----- What is bound, instruction by instruction ----------------------------------------------------------

  /** The instructions that access a field: of `this` in a method itself, and in the functions within it. */
  const FIELD_CODES: set<byte> := {CODE_LOAD_FIELD_THIS, CODE_STORE_FIELD_THIS, CODE_LOAD_FIELD, CODE_STORE_FIELD}

  /** The instruction `r` is `i` with its field moved, if it accesses one. */
  predicate OnlyFieldMoved(i: Instr, r: Instr, inherited: nat) {
    r.op == i.op && if i.op in FIELD_CODES then |i.args| == 1 && r.args == [(i.args[0] + inherited) % 256]
                    else r.args == i.args
  }

  /** The constant of the 17 instructions that call a method of the superclass is the superclass. */
  predicate SuperFilled(i: Instr, constants: seq<Constant>, superclass: nat) {
    CODE_SUPER_0 <= i.op <= CODE_SUPER_0 + 16 ==>
      |i.args| == 4 && 256 * (i.args[2] as nat) + (i.args[3] as nat) < |constants|
      && constants[256 * (i.args[2] as nat) + (i.args[3] as nat)] == Class(superclass)
  }

  /** A bound function has the instructions it had: all its field accesses are moved, all its calls of the superclass
      have the superclass, and no other instruction is different. */
  lemma {:induction false} BoundByName(fn: Fn, r: Fn, inherited: nat, superclass: nat)
    returns (ins: seq<Instr>, bound: seq<Instr>)
    requires Bound(fn, r, inherited, superclass)
    ensures fn.code == Bytes(ins) && r.code == Bytes(bound) && |bound| == |ins|
    ensures forall k :: 0 <= k < |ins| ==> OnlyFieldMoved(ins[k], bound[k], inherited)
    ensures forall k :: 0 <= k < |ins| ==> SuperFilled(ins[k], r.constants, superclass)
  {
    hide Bytes, Finished, BoundAll, OnlyFieldMoved, SuperFilled, Loads;
    ins := BoundFrom(fn, r, inherited, superclass);
    bound := BoundAll(ins, inherited);
    forall k | 0 <= k < |ins|
      ensures OnlyFieldMoved(ins[k], bound[k], inherited) && SuperFilled(ins[k], r.constants, superclass)
    {
      FieldByName(fn, ins, k, inherited);
      SuperByName(fn, r, ins, k, superclass);
    }
  }

  lemma {:induction false} BoundFrom(fn: Fn, r: Fn, inherited: nat, superclass: nat)
    returns (ins: seq<Instr>)
    requires Bound(fn, r, inherited, superclass)
    ensures Finished(fn, ins) && fn.code == Bytes(ins) && r.code == Bytes(BoundAll(ins, inherited))
    ensures |r.constants| == |fn.constants| && HasSupers(fn, r, ins, superclass)
  {
    hide Bytes, Supers, Loads;
    ins :| Finished(fn, ins) && r.code == Bytes(BoundAll(ins, inherited))
      && forall c :: 0 <= c < |fn.constants| ==>
           if fn.constants[c].Function? && Loads(ins, |ins|, c) then
             r.constants[c].Function? && Bound(fn.constants[c].fn, r.constants[c].fn, inherited, superclass)
           else if Supers(ins, |ins|, c) then r.constants[c] == Class(superclass)
           else r.constants[c] == fn.constants[c];
  }

  ghost predicate HasSupers(fn: Fn, r: Fn, ins: seq<Instr>, superclass: nat) {
    && |r.constants| == |fn.constants|
    && forall c :: 0 <= c < |fn.constants| && !fn.constants[c].Function? && Supers(ins, |ins|, c) ==>
         r.constants[c] == Class(superclass)
  }

  lemma {:induction false} FieldByName(fn: Fn, ins: seq<Instr>, k: nat, inherited: nat)
    requires Finished(fn, ins) && k < |ins|
    ensures OnlyFieldMoved(ins[k], BoundAll(ins, inherited)[k], inherited)
  {
    assert k < |ins| - 1 ==> Shaped(fn.constants, ins[k]);
  }

  lemma {:induction false} SuperByName(fn: Fn, r: Fn, ins: seq<Instr>, k: nat, superclass: nat)
    requires Finished(fn, ins) && k < |ins| && HasSupers(fn, r, ins, superclass)
    ensures SuperFilled(ins[k], r.constants, superclass)
  {
    if CODE_SUPER_0 <= ins[k].op <= CODE_SUPER_0 + 16 {
      assert k < |ins| - 1;
      var c := ConstantAt(ins[k].args, 2);
      assert SupersAt(ins[k], c);
      assert Supers(ins, |ins|, c);
    }
  }

  // ----- Fields ---------------------------------------------------------------------------------------------

  /** Whether a class with so many fields of its own may inherit so many; a foreign class has -1. */
  function ValidFields(inherited: int, own: int): bool {
    inherited != -1 && !(own == -1 && inherited > 0) && inherited + own <= MAX_FIELDS
  }

  /** The fields of a class that may inherit so many come right after the inherited ones, all below 255: no operand
      wraps around. */
  lemma {:induction false} FieldPlaced(i: Instr, inherited: nat, own: nat)
    requires ValidFields(inherited, own) && i.op in FIELD_CODES && |i.args| == 1 && i.args[0] < own
    ensures BoundInstr(i, inherited).op == i.op && BoundInstr(i, inherited).args == [i.args[0] + inherited]
    ensures inherited <= BoundInstr(i, inherited).args[0] < inherited + own <= 255
  {
  }

  /** Different fields stay different, and none falls on an inherited one, exactly when the last one is below 256. */
  lemma {:induction false} FieldsFit(inherited: nat, own: nat)
    requires 0 < own <= 256
    ensures (forall f :: 0 <= f < own ==> Moved(f, inherited) == f + inherited) <==> inherited + own <= 256
  {
    assert Moved(own - 1, inherited) == own - 1 + inherited <==> own - 1 + inherited < 256;
  }

  function Moved(field: nat, inherited: nat): nat {
    (field + inherited) % 256
  }

  // ----- A method with a closure ----------------------------------------------------------------------------

  /** A function within a method, which accesses field `k` and returns. */
  function FieldUser(op: byte, k: byte, numUpvalues: nat): Fn {
    Fn([op, k, CODE_RETURN, CODE_END], [], numUpvalues)
  }

  /** The method, which returns a closure of it; `captured` are the bytes for what it captures. */
  function ClosureMaker(op: byte, k: byte, captured: seq<byte>): Fn {
    Fn([CODE_CLOSURE, 0, 0] + captured + [CODE_RETURN, CODE_END],
       [Function(FieldUser(op, k, |captured| / 2))], 0)
  }

  lemma {:induction false} ThreeInstructions(a: Instr, b: Instr, c: Instr)
    ensures Bytes([a, b, c]) == ([a.op] + a.args) + (([b.op] + b.args) + ([c.op] + c.args))
  {
    assert [a, b, c] == [a] + ([b] + [c]);
    BytesAppend([a], [b] + [c]);
    BytesAppend([b], [c]);
    BytesOne(a);
    BytesOne(b);
    BytesOne(c);
  }

  lemma {:induction false} FieldUserFinished(op: byte, k: byte, numUpvalues: nat)
    requires op in FIELD_CODES
    ensures AllFinished(FieldUser(op, k, numUpvalues))
  {
    hide Bytes;
    var ins := [Instr(op, [k]), Op(CODE_RETURN), Op(CODE_END)];
    ThreeInstructions(ins[0], ins[1], ins[2]);
    assert Finished(FieldUser(op, k, numUpvalues), ins);
  }

  /** Code with all four of the instructions that access fields, in methods and in functions within them, can be
      bound, whatever those capture. */
  lemma {:induction false} ClosureMakerFinished(op: byte, k: byte, captured: seq<byte>)
    requires op in FIELD_CODES && |captured| % 2 == 0
    ensures AllFinished(ClosureMaker(op, k, captured))
  {
    hide Bytes;
    FieldUserFinished(op, k, |captured| / 2);
    var ins := [Instr(CODE_CLOSURE, [0, 0] + captured), Op(CODE_RETURN), Op(CODE_END)];
    ThreeInstructions(ins[0], ins[1], ins[2]);
    assert Finished(ClosureMaker(op, k, captured), ins);
  }
}
