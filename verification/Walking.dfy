/** The walk over the bytes of a loop body that patches its pending breaks. */
module Walking {
  import opened Basics
  import opened Bytecode
  import opened Octets
  import opened CodeGenLaws
  import opened Emission

  /** The walker is at byte `i`, the start of instruction `k`: what is behind it has been patched
      and what is ahead is as it was emitted. */
  ghost predicate Walked(before: seq<byte>, ins: seq<Instr>, k: nat, i: int, code: seq<byte>) {
    && k <= |ins|
    && i == |before| + Size(PatchBreaks(ins, 0)[..k])
    && code == before + Bytes(PatchBreaks(ins, 0)[..k]) + Bytes(ins[k..])
  }

  lemma {:induction false} WalkStart(before: seq<byte>, ins: seq<Instr>)
    ensures Walked(before, ins, 0, |before|, before + Bytes(ins))
  {
    var done := PatchBreaks(ins, 0);
    assert done[..0] == [] && ins[0..] == ins;
    assert before + [] == before;
  }

  lemma {:induction false} BytesSize(ins: seq<Instr>)
    ensures |Bytes(ins)| == Size(ins)
  {
  }

  /** The walk is over exactly when all instructions are behind it. */
  lemma {:induction false} WalkEnd(before: seq<byte>, ins: seq<Instr>, k: nat, i: int, code: seq<byte>)
    requires Walked(before, ins, k, i, code)
    ensures i >= |code| <==> k == |ins|
    ensures k == |ins| ==> code == before + Bytes(PatchBreaks(ins, 0))
    ensures 0 <= i
  {
    var done := PatchBreaks(ins, 0);
    BytesSize(done[..k]);
    BytesSize(ins[k..]);
    if k == |ins| {
      assert ins[k..] == [];
      assert done[..k] == done;
      assert before + Bytes(done) + [] == before + Bytes(done);
    }
  }

  /** The walker is on an instruction boundary: the opcode it reads is that of the next instruction. */
  lemma {:induction false} WalkHere(before: seq<byte>, ins: seq<Instr>, k: nat, i: int, code: seq<byte>)
    requires Walked(before, ins, k, i, code) && k < |ins|
    ensures 0 <= i && i + 1 + |ins[k].args| <= |code| && code[i] == ins[k].op
    ensures code[..i] == before + Bytes(PatchBreaks(ins, 0)[..k])
    ensures code[i + 1..i + 1 + |ins[k].args|] == ins[k].args
    ensures code[i + 1 + |ins[k].args|..] == Bytes(ins[k + 1..])
  {
    hide PatchBreaks, Bytes, Size;
    var head, rest := before + Bytes(PatchBreaks(ins, 0)[..k]), ins[k + 1..];
    assert ins[k..] == [ins[k]] + rest;
    BytesAppend([ins[k]], rest);
    BytesOne(ins[k]);
    BytesSize(PatchBreaks(ins, 0)[..k]);
    assert Bytes(ins[k..]) == [ins[k].op] + ins[k].args + Bytes(rest);
    HeadTail(code, head, ins[k].op, ins[k].args, Bytes(rest));
  }

  lemma {:induction false} HeadTail(code: seq<byte>, head: seq<byte>, op: byte, args: seq<byte>, rest: seq<byte>)
    requires code == head + ([op] + args + rest)
    ensures var i := |head|;
            && i + 1 + |args| <= |code| && code[i] == op && code[..i] == head
            && code[i + 1..i + 1 + |args|] == args && code[i + 1 + |args|..] == rest
  {
  }

  /** Moving over an instruction whose bytes in the code are now those it should have. */
  lemma {:induction false} WalkOn(before: seq<byte>, ins: seq<Instr>, k: nat, i: int, code: seq<byte>)
    requires k < |ins| && |PatchBreaks(ins, 0)[k].args| == |ins[k].args|
    requires var j := PatchBreaks(ins, 0)[k];
             && i == |before| + Size(PatchBreaks(ins, 0)[..k])
             && code == before + Bytes(PatchBreaks(ins, 0)[..k]) + ([j.op] + j.args) + Bytes(ins[k + 1..])
    ensures Walked(before, ins, k + 1, i + 1 + |ins[k].args|, code)
  {
    hide PatchBreaks;
    var done := PatchBreaks(ins, 0);
    assert done[..k + 1] == done[..k] + [done[k]];
    AppendCode(before, done[..k], [done[k]]);
    BytesAppend(done[..k], [done[k]]);
    BytesOne(done[k]);
  }

  /** Stepping over an instruction that is not a pending break. */
  lemma {:induction false} WalkSkip(before: seq<byte>, ins: seq<Instr>, k: nat, i: int, code: seq<byte>)
    requires Walked(before, ins, k, i, code) && k < |ins| && Walkable(ins) && ins[k].op != CODE_END
    ensures Walked(before, ins, k + 1, i + 1 + NumArguments(ins[k].op), code)
  {
    hide NumArguments, PatchBreaks;
    WalkHere(before, ins, k, i, code);
    PatchAt(ins, 0, k);
    var n := i + 1 + |ins[k].args|;
    assert code == code[..i] + ([ins[k].op] + ins[k].args) + code[n..];
    WalkOn(before, ins, k, i, code);
  }

  /** Replacing a pending break by a jump to the end of the code. */
  lemma {:induction false} WalkPatch(before: seq<byte>, ins: seq<Instr>, k: nat, i: int, code: seq<byte>, slots: int,
                                     peak: int)
    requires Walked(before, ins, k, i, code) && k < |ins| && Walkable(ins) && ins[k].op == CODE_END
    ensures 0 <= i && i + 3 <= |code|
    ensures Walked(before, ins, k + 1, i + 3, Patch(Output(code[i := CODE_JUMP], slots, peak), i + 1).code)
  {
    hide U16, PatchBreaks;
    WalkHere(before, ins, k, i, code);
    PatchAt(ins, 0, k);
    var rest := ins[k + 1..];
    BytesSize(rest);
    PatchedJump(code, i, slots, peak);
    WalkOn(before, ins, k, i, Patch(Output(code[i := CODE_JUMP], slots, peak), i + 1).code);
  }

  /** A pending break becomes a jump to the end of the code. */
  lemma {:induction false} PatchedJump(code: seq<byte>, i: nat, slots: int, peak: int)
    requires i + 3 <= |code|
    ensures Patch(Output(code[i := CODE_JUMP], slots, peak), i + 1).code
         == code[..i] + ([CODE_JUMP] + U16(|code| - i - 3)) + code[i + 3..]
  {
    hide U16;
  }

  lemma {:induction false} BytesOneShort(op: byte, n: nat)
    ensures Bytes([ShortOp(op, n)]) == [op] + U16(n)
  {
    BytesOne(ShortOp(op, n));
  }

  /** The jump back ends the walk: the body's breaks land right after it. */
  lemma {:induction false} WalkBack(body: seq<Instr>, offset: nat)
    requires Walkable(body)
    ensures var back := [ShortOp(CODE_LOOP, offset)];
            Walkable(body + back) && PatchBreaks(body + back, 0) == PatchBreaks(body, 3) + back
  {
    hide PatchBreaks, U16;
    var back := [ShortOp(CODE_LOOP, offset)];
    ShortSize(CODE_LOOP, offset);
    PatchAppend(body, back, 0);
    PatchNothing(back, 0);
  }

  /** The exit jump of a loop, patched over everything emitted after it. */
  lemma {:induction false} ExitPatched(before: seq<byte>, bind: seq<Instr>, rest: seq<Instr>, o: Output)
    requires o.code == before + [CODE_JUMP_IF, 255, 255] + Bytes(bind) + Bytes(rest)
    ensures |before| + 3 <= |o.code|
    ensures Patch(o, |before| + 1) == o.(code := before + Bytes([ShortOp(CODE_JUMP_IF, Size(bind) + Size(rest))])
                                                + Bytes(bind) + Bytes(rest))
  {
    hide U16, Patch, Size, Bytes, ShortOp;
    var i := ShortOp(CODE_JUMP_IF, Size(bind) + Size(rest));
    BytesSize(bind);
    BytesSize(rest);
    BytesOneShort(CODE_JUMP_IF, Size(bind) + Size(rest));
    PatchPair(before, CODE_JUMP_IF, Bytes(bind), Bytes(rest), Bytes([i]), o);
  }

  lemma {:induction false} PatchPair(before: seq<byte>, op: byte, a: seq<byte>, b: seq<byte>, i: seq<byte>, o: Output)
    requires o.code == before + [op, 255, 255] + a + b && i == [op] + U16(|a| + |b|)
    ensures |before| + 3 <= |o.code| && Patch(o, |before| + 1) == o.(code := before + i + a + b)
  {
    hide U16, Patch;
    Assoc(before + [op, 255, 255], a, b);
    PatchBytes(before, op, a + b, o);
    Assoc(before + i, a, b);
  }
}
