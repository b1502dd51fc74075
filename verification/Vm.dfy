/** The bytecode interpreter on one call frame. */
module Vm {
  import opened Wrappers
  import opened Syntax
  import opened Semantics
  import opened Bytecode
  import opened Octets

  /** A frame is running, has returned, has aborted with a runtime error, has written past the
      stack slots reserved when it was called, or has met bytes that are not code it can run. */
  datatype Status = Running | Finished(v: Value) | Aborted | Overflowed | Stuck

  /** The frame's slots start with the receiver; `pc` is an index into the function's code. */
  datatype State = State(pc: nat, stack: seq<Value>, w: World, status: Status)

  /** What stays the same while a frame runs. `capacity` is the number of slots from the frame's
      first one to the end of the fiber's stack. */
  datatype Machine = Machine(code: seq<byte>, consts: seq<Value>, sigs: seq<string>, host: Host, capacity: nat)

  function Push(m: Machine, st: State, next: nat, v: Value): State {
    if |st.stack| < m.capacity then State(next, st.stack + [v], st.w, Running)
    else st.(status := Overflowed)
  }

  function Top(st: State): Value
    requires st.stack != []
  {
    st.stack[|st.stack| - 1]
  }

  function Drop(st: State, n: nat): seq<Value>
    requires n <= |st.stack|
  {
    st.stack[..|st.stack| - n]
  }

  /** Calls the method `sig` on the top `n` slots, and leaves its result in their place. */
  function Invoke(m: Machine, st: State, next: nat, sym: nat, n: nat): State {
    if sym >= |m.sigs| || n > |st.stack| then st.(status := Stuck)
    else
      var (w', r) := m.host.invoke(st.w, m.sigs[sym], st.stack[|st.stack| - n..]);
      match r
      case None => State(next, st.stack, w', Aborted)
      case Some(v) => State(next, Drop(st, n) + [v], w', Running)
  }

  /** One turn of the interpreter loop: fetch an opcode and its operands, and act. Opcodes for
      fields, upvalues, classes, closures and modules do not occur in a plain function body. */
  function Step(m: Machine, st: State): State {
    if st.status != Running then st
    else if st.pc >= |m.code| then st.(status := Stuck)
    else
      var op := m.code[st.pc];
      var next := st.pc + 1 + NumArguments(op);
      if next > |m.code| then st.(status := Stuck)
      else Act(m, st, op, m.code[st.pc + 1..next], next)
  }

  function Act(m: Machine, st: State, op: byte, args: seq<byte>, next: nat): State
    requires |args| == NumArguments(op)
  {
    if op == CODE_NULL then Push(m, st, next, Null)
    else if op == CODE_FALSE then Push(m, st, next, Bool(false))
    else if op == CODE_TRUE then Push(m, st, next, Bool(true))
    else if op == CODE_CONSTANT then
      var k := Short(args[0], args[1]);
      if k < |m.consts| then Push(m, st, next, m.consts[k]) else st.(status := Stuck)
    else if CODE_LOAD_LOCAL_0 <= op <= CODE_LOAD_LOCAL then
      var slot := if op == CODE_LOAD_LOCAL then args[0] else op - CODE_LOAD_LOCAL_0;
      if slot < |st.stack| then Push(m, st, next, st.stack[slot]) else st.(status := Stuck)
    else if op == CODE_LOAD_MODULE_VAR then
      Push(m, st, next, m.host.load(st.w, Short(args[0], args[1])))
    else if CODE_CALL_0 <= op < CODE_SUPER_0 then
      Invoke(m, st, next, Short(args[0], args[1]), op - CODE_CALL_0 + 1)
    else if op == CODE_JUMP then st.(pc := next + Short(args[0], args[1]))
    else if op == CODE_LOOP then
      if Short(args[0], args[1]) <= next then st.(pc := next - Short(args[0], args[1])) else st.(status := Stuck)
    else if st.stack == [] then st.(status := Stuck)
    else ActOnTop(m, st, op, args, next)
  }

  /** The opcodes that look at the top of the stack. */
  function ActOnTop(m: Machine, st: State, op: byte, args: seq<byte>, next: nat): State
    requires |args| == NumArguments(op) && st.stack != []
  {
    if op == CODE_POP then State(next, Drop(st, 1), st.w, Running)
    else if op == CODE_STORE_LOCAL then
      if args[0] < |st.stack| then State(next, st.stack[args[0] := Top(st)], st.w, Running)
      else st.(status := Stuck)
    else if op == CODE_STORE_MODULE_VAR then
      State(next, st.stack, m.host.store(st.w, Short(args[0], args[1]), Top(st)), Running)
    else if op == CODE_JUMP_IF then
      State(if Falsy(Top(st)) then next + Short(args[0], args[1]) else next, Drop(st, 1), st.w, Running)
    else if op == CODE_AND then
      if Falsy(Top(st)) then st.(pc := next + Short(args[0], args[1]))
      else State(next, Drop(st, 1), st.w, Running)
    else if op == CODE_OR then
      if Falsy(Top(st)) then State(next, Drop(st, 1), st.w, Running)
      else st.(pc := next + Short(args[0], args[1]))
    else if op == CODE_RETURN then State(next, Drop(st, 1), st.w, Finished(Top(st)))
    else st.(status := Stuck)
  }

  function Run(m: Machine, st: State, n: nat): State
    decreases n
  {
    if n == 0 then st else Run(m, Step(m, st), n - 1)
  }

  lemma {:induction false} RunAppend(m: Machine, st: State, a: nat, b: nat)
    ensures Run(m, st, a + b) == Run(m, Run(m, st, a), b)
    decreases a
  {
    if a > 0 {
      RunAppend(m, Step(m, st), a - 1, b);
    }
  }

  /** Once a frame has stopped it stays as it is. */
  lemma {:induction false} RunStopped(m: Machine, st: State, n: nat)
    requires st.status != Running
    ensures Run(m, st, n) == st
  {
    if n > 0 {
      RunStopped(m, st, n - 1);
    }
  }

  /** A frame that is running after `n` turns was running all along. */
  lemma {:induction false} RunningBefore(m: Machine, st: State, k: nat, n: nat)
    requires k <= n && Run(m, st, n).status == Running
    ensures Run(m, st, k).status == Running
  {
    RunAppend(m, st, k, n - k);
    if Run(m, st, k).status != Running {
      RunStopped(m, Run(m, st, k), n - k);
    }
  }

  /** Two ways of stopping agree. */
  lemma {:induction false} StopUnique(m: Machine, st: State, a: nat, b: nat)
    requires Run(m, st, a).status != Running && Run(m, st, b).status != Running
    ensures Run(m, st, a) == Run(m, st, b)
  {
    if a <= b {
      RunAppend(m, st, a, b - a);
      RunStopped(m, Run(m, st, a), b - a);
    } else {
      RunAppend(m, st, b, a - b);
      RunStopped(m, Run(m, st, b), a - b);
    }
  }

  /** The interpreter: it changes its instruction pointer, stack and world in place. */
  class Interpreter {
    const m: Machine
    var pc: nat
    var stack: seq<Value>
    var w: World
    var status: Status

    function Now(): State
      reads this
    {
      State(pc, stack, w, status)
    }

    constructor (m: Machine, frame: seq<Value>, w: World)
      ensures this.m == m && Now() == State(0, frame, w, Running)
    {
      this.m := m;
      pc, stack, this.w, status := 0, frame, w, Running;
    }

    /** Runs at most `limit` instructions; the loop of the interpreter has none. */
    method RunInterpreter(limit: nat)
      modifies this
      ensures Now() == Run(m, old(Now()), limit)
    {
      var i := 0;
      while i < limit && status == Running
        invariant i <= limit
        invariant Run(m, old(Now()), i) == Now()
      {
        RunAppend(m, old(Now()), i, 1);
        Dispatch();
        i := i + 1;
      }
      if i < limit {
        RunAppend(m, old(Now()), i, limit - i);
        RunStopped(m, Now(), limit - i);
      }
    }

    method PushValue(next: nat, v: Value)
      requires status == Running
      modifies this
      ensures Now() == Push(m, old(Now()), next, v)
    {
      if |stack| < m.capacity {
        pc, stack := next, stack + [v];
      } else {
        status := Overflowed;
      }
    }

    /** Replaces the arguments on top of the stack by the method's result. */
    method CallMethod(next: nat, sym: nat, n: nat)
      requires status == Running
      modifies this
      ensures Now() == Invoke(m, old(Now()), next, sym, n)
    {
      if sym >= |m.sigs| || n > |stack| {
        status := Stuck;
        return;
      }
      var (w', r) := m.host.invoke(w, m.sigs[sym], stack[|stack| - n..]);
      pc, w := next, w';
      if r.Some? {
        stack := stack[..|stack| - n] + [r.value];
      } else {
        status := Aborted;
      }
    }

    /** One instruction: reads it, and moves to the next one or elsewhere. */
    method Dispatch()
      requires status == Running
      modifies this
      ensures Now() == Step(m, old(Now()))
    {
      if pc >= |m.code| || pc + 1 + NumArguments(m.code[pc]) > |m.code| {
        status := Stuck;
        return;
      }
      var op, next := m.code[pc], pc + 1 + NumArguments(m.code[pc]);
      var args := m.code[pc + 1..next];
      if op == CODE_NULL {
        PushValue(next, Null);
      } else if op == CODE_FALSE {
        PushValue(next, Bool(false));
      } else if op == CODE_TRUE {
        PushValue(next, Bool(true));
      } else if op == CODE_CONSTANT {
        if Short(args[0], args[1]) < |m.consts| {
          PushValue(next, m.consts[Short(args[0], args[1])]);
        } else {
          status := Stuck;
        }
      } else if CODE_LOAD_LOCAL_0 <= op <= CODE_LOAD_LOCAL {
        var slot := if op == CODE_LOAD_LOCAL then args[0] else op - CODE_LOAD_LOCAL_0;
        if slot < |stack| {
          PushValue(next, stack[slot]);
        } else {
          status := Stuck;
        }
      } else if op == CODE_LOAD_MODULE_VAR {
        PushValue(next, m.host.load(w, Short(args[0], args[1])));
      } else if CODE_CALL_0 <= op < CODE_SUPER_0 {
        CallMethod(next, Short(args[0], args[1]), op - CODE_CALL_0 + 1);
      } else if op == CODE_JUMP {
        pc := next + Short(args[0], args[1]);
      } else if op == CODE_LOOP {
        if Short(args[0], args[1]) <= next {
          pc := next - Short(args[0], args[1]);
        } else {
          status := Stuck;
        }
      } else if stack == [] {
        status := Stuck;
      } else {
        DispatchOnTop(op, args, next);
      }
    }

    /** The instructions that look at the top of the stack. */
    method DispatchOnTop(op: byte, args: seq<byte>, next: nat)
      requires status == Running && stack != [] && |args| == NumArguments(op)
      modifies this
      ensures Now() == ActOnTop(m, old(Now()), op, args, next)
    {
      var top, below := stack[|stack| - 1], stack[..|stack| - 1];
      if op == CODE_POP {
        pc, stack := next, below;
      } else if op == CODE_STORE_LOCAL {
        if args[0] < |stack| {
          pc, stack := next, stack[args[0] := top];
        } else {
          status := Stuck;
        }
      } else if op == CODE_STORE_MODULE_VAR {
        pc, w := next, m.host.store(w, Short(args[0], args[1]), top);
      } else if op == CODE_JUMP_IF {
        pc, stack := next, below;
        if Falsy(top) {
          pc := pc + Short(args[0], args[1]);
        }
      } else if op == CODE_AND || op == CODE_OR {
        if Falsy(top) == (op == CODE_AND) {
          pc := next + Short(args[0], args[1]);
        } else {
          pc, stack := next, below;
        }
      } else if op == CODE_RETURN {
        pc, stack, status := next, below, Finished(top);
      } else {
        status := Stuck;
      }
    }
  }
}
