/** Opcodes, instructions and their bytes. */
module Bytecode {
  import opened Wrappers
  import opened Syntax
  import opened Octets

  // The order of the opcodes is the order of the table in wren_opcodes.h.
  const CODE_CONSTANT := 0
  const CODE_NULL := 1
  const CODE_FALSE := 2
  const CODE_TRUE := 3
  const CODE_LOAD_LOCAL_0 := 4
  const CODE_LOAD_LOCAL := 13
  const CODE_STORE_LOCAL := 14
  const CODE_LOAD_UPVALUE := 15
  const CODE_STORE_UPVALUE := 16
  const CODE_LOAD_MODULE_VAR := 17
  const CODE_STORE_MODULE_VAR := 18
  const CODE_LOAD_FIELD_THIS := 19
  const CODE_STORE_FIELD_THIS := 20
  const CODE_LOAD_FIELD := 21
  const CODE_STORE_FIELD := 22
  const CODE_POP := 23
  const CODE_CALL_0 := 24
  const CODE_SUPER_0 := 41
  const CODE_JUMP := 58
  const CODE_LOOP := 59
  const CODE_JUMP_IF := 60
  const CODE_AND := 61
  const CODE_OR := 62
  const CODE_CLOSE_UPVALUE := 63
  const CODE_RETURN := 64
  const CODE_CLOSURE := 65
  const CODE_CONSTRUCT := 66
  const CODE_FOREIGN_CONSTRUCT := 67
  const CODE_CLASS := 68
  const CODE_FOREIGN_CLASS := 69
  const CODE_METHOD_INSTANCE := 70
  const CODE_METHOD_STATIC := 71
  const CODE_END_MODULE := 72
  const CODE_IMPORT_MODULE := 73
  const CODE_IMPORT_VARIABLE := 74
  const CODE_END := 75

  /** The change in stack height that the compiler accounts to an opcode. */
  function StackEffect(op: byte): int {
    if op <= CODE_LOAD_LOCAL then 1
    else if op == CODE_LOAD_UPVALUE || op == CODE_LOAD_MODULE_VAR || op == CODE_LOAD_FIELD_THIS then 1
    else if op == CODE_STORE_FIELD || op == CODE_POP then -1
    else if CODE_CALL_0 <= op < CODE_SUPER_0 then CODE_CALL_0 - op
    else if CODE_SUPER_0 <= op < CODE_JUMP then CODE_SUPER_0 - op
    else if CODE_JUMP_IF <= op <= CODE_CLOSE_UPVALUE then -1
    else if op == CODE_CLOSURE then 1
    else if op == CODE_CLASS || op == CODE_FOREIGN_CLASS then -1
    else if op == CODE_METHOD_INSTANCE || op == CODE_METHOD_STATIC then -2
    else if CODE_END_MODULE <= op <= CODE_IMPORT_VARIABLE then 1
    else 0
  }

  /** The operand bytes of every opcode but CODE_CLOSURE, whose count depends on the function it loads: that case
      is `MethodBinding.GetNumArguments`. */
  function NumArguments(op: byte): nat {
    if op == CODE_LOAD_LOCAL || op == CODE_STORE_LOCAL || op == CODE_LOAD_UPVALUE || op == CODE_STORE_UPVALUE ||
       CODE_LOAD_FIELD_THIS <= op <= CODE_STORE_FIELD || op == CODE_CLASS then 1
    else if op == CODE_CONSTANT || op == CODE_LOAD_MODULE_VAR || op == CODE_STORE_MODULE_VAR ||
       CODE_CALL_0 <= op < CODE_SUPER_0 || CODE_JUMP <= op <= CODE_OR ||
       op == CODE_METHOD_INSTANCE || op == CODE_METHOD_STATIC || op == CODE_IMPORT_MODULE then 2
    else if CODE_SUPER_0 <= op < CODE_JUMP || op == CODE_IMPORT_VARIABLE then 4
    else 0
  }

  /** The opcodes with operands, by name; all others but CODE_CLOSURE have none. */
  const BYTE_OPERAND: set<byte> := {
    CODE_LOAD_LOCAL, CODE_STORE_LOCAL, CODE_LOAD_UPVALUE, CODE_STORE_UPVALUE, CODE_LOAD_FIELD_THIS,
    CODE_STORE_FIELD_THIS, CODE_LOAD_FIELD, CODE_STORE_FIELD, CODE_CLASS}
  const SHORT_OPERAND: set<byte> := {
    CODE_CONSTANT, CODE_LOAD_MODULE_VAR, CODE_STORE_MODULE_VAR, CODE_JUMP, CODE_LOOP, CODE_JUMP_IF, CODE_AND, CODE_OR,
    CODE_METHOD_INSTANCE, CODE_METHOD_STATIC, CODE_IMPORT_MODULE}

  /** Calls have the method's symbol, and those of a superclass also a constant. There are 17 of each, by the number of
      arguments. */
  lemma {:induction false} ArgumentsOf(op: byte)
    ensures NumArguments(op) ==
              if op in BYTE_OPERAND then 1
              else if op in SHORT_OPERAND || CODE_CALL_0 <= op <= CODE_CALL_0 + 16 then 2
              else if CODE_SUPER_0 <= op <= CODE_SUPER_0 + 16 || op == CODE_IMPORT_VARIABLE then 4
              else 0
  {
  }

  /** A 16-bit operand, big endian; like `emitShort`, it silently drops the higher bits. */
  function U16(n: nat): (r: seq<byte>)
    ensures |r| == 2
  {
    [(n / 256) % 256, n % 256]
  }

  function Short(hi: byte, lo: byte): nat {
    hi * 256 + lo
  }

  /** The operand survives exactly when it is below 65536. */
  lemma {:induction false} ShortU16(n: nat)
    ensures Short(U16(n)[0], U16(n)[1]) == n <==> n < 65536
  {
  }

  /** One instruction with its operand bytes. A pending `break` is CODE_END followed by two bytes
      of placeholder. */
  datatype Instr = Instr(op: byte, args: seq<byte>)

  function Op(op: byte): Instr { Instr(op, []) }

  function ByteOp(op: byte, arg: nat): Instr { Instr(op, [arg % 256]) }

  function ShortOp(op: byte, arg: nat): Instr { Instr(op, U16(arg)) }

  const PENDING_BREAK := Instr(CODE_END, [255, 255])

  function Size(ins: seq<Instr>): nat {
    if ins == [] then 0 else 1 + |ins[0].args| + Size(ins[1..])
  }

  function Bytes(ins: seq<Instr>): (r: seq<byte>)
    ensures |r| == Size(ins)
  {
    if ins == [] then [] else [ins[0].op] + ins[0].args + Bytes(ins[1..])
  }

  lemma {:induction false} BytesAppend(a: seq<Instr>, b: seq<Instr>)
    ensures Bytes(a + b) == Bytes(a) + Bytes(b)
    ensures Size(a + b) == Size(a) + Size(b)
  {
    if a == [] {
      assert a + b == b;
    } else {
      assert (a + b)[1..] == a[1..] + b;
      BytesAppend(a[1..], b);
    }
  }

  lemma {:induction false} BytesAppend3(a: seq<Instr>, b: seq<Instr>, c: seq<Instr>)
    ensures Bytes(a + b + c) == Bytes(a) + Bytes(b) + Bytes(c)
    ensures Size(a + b + c) == Size(a) + Size(b) + Size(c)
  {
    BytesAppend(a + b, c);
    BytesAppend(a, b);
  }

  lemma {:induction false} BytesOne(i: Instr)
    ensures Bytes([i]) == [i.op] + i.args
    ensures Size([i]) == 1 + |i.args|
  {
    assert [i][1..] == [];
  }

  /** The instructions `ins` lie in `code` from `pc` on. */
  ghost predicate At(code: seq<byte>, pc: nat, ins: seq<Instr>)
    decreases |ins|
  {
    ins == [] ||
    (var next := pc + 1 + |ins[0].args|;
     next <= |code| && code[pc] == ins[0].op && code[pc + 1..next] == ins[0].args && At(code, next, ins[1..]))
  }

  lemma {:induction false} AtSplit(code: seq<byte>, pc: nat, a: seq<Instr>, b: seq<Instr>)
    requires At(code, pc, a + b)
    ensures At(code, pc, a) && At(code, pc + Size(a), b)
    ensures Size(a + b) == Size(a) + Size(b)
    decreases |a|
  {
    if a == [] {
      assert a + b == b;
    } else {
      assert (a + b)[1..] == a[1..] + b;
      AtSplit(code, pc + 1 + |a[0].args|, a[1..], b);
    }
  }

  lemma {:induction false} AtSplit3(code: seq<byte>, pc: nat, a: seq<Instr>, b: seq<Instr>, c: seq<Instr>)
    requires At(code, pc, a + b + c)
    ensures At(code, pc, a) && At(code, pc + Size(a), b) && At(code, pc + Size(a) + Size(b), c)
    ensures Size(a + b + c) == Size(a) + Size(b) + Size(c)
  {
    AtSplit(code, pc, a + b, c);
    AtSplit(code, pc, a, b);
  }

  /** The bytes of an instruction list hold that list. */
  lemma {:induction false} BytesAt(code: seq<byte>, before: seq<byte>, ins: seq<Instr>, after: seq<byte>)
    requires code == before + Bytes(ins) + after
    ensures At(code, |before|, ins)
    decreases |ins|
  {
    if ins != [] {
      var args := ins[0].args;
      Regrouped(code, before, ins[0].op, args, Bytes(ins[1..]), after);
      BytesAt(code, before + ([ins[0].op] + args), ins[1..], after);
    }
  }

  lemma {:induction false} Regrouped(code: seq<byte>, before: seq<byte>, op: byte, args: seq<byte>, rest: seq<byte>,
                                     after: seq<byte>)
    requires code == before + ([op] + args + rest) + after
    ensures code == (before + ([op] + args)) + rest + after
    ensures |before| + 1 + |args| <= |code| && code[|before|] == op
    ensures code[|before| + 1..|before| + 1 + |args|] == args
  {
    var next := before + ([op] + args);
    assert code == next + rest + after;
    assert code[..|next|] == next;
    assert next[|before| + 1..] == args;
  }
}
