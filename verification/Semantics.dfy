/** What a function body means, without a stack and without jumps. Evaluation is a big-step
    function; loops carry fuel, so that divergence is "out of fuel for every fuel". */
module Semantics {
  import opened Wrappers
  import opened Syntax

  /** Everything outside the function: other objects, the heap, output. Method calls may change it. */
  type World = int

  /** What the rest of the virtual machine does, left uninterpreted: reading and writing module
      variables, and invoking a method, which yields a value or a runtime error. */
  datatype Host = Host(
    load: (World, nat) -> Value,
    store: (World, nat, Value) -> World,
    invoke: (World, string, seq<Value>) -> (World, Option<Value>),
    moduleNames: seq<string>)

  datatype Binding = Binding(name: string, value: Value)

  /** The variables in scope, innermost last. Entry 0 is the unnamed receiver. */
  type Env = seq<Binding>

  function Names(env: Env): (r: seq<string>)
    ensures |r| == |env|
  {
    seq(|env|, i requires 0 <= i < |env| => env[i].name)
  }

  function Values(env: Env): (r: seq<Value>)
    ensures |r| == |env|
  {
    seq(|env|, i requires 0 <= i < |env| => env[i].value)
  }

  datatype Answer = Val(v: Value, env: Env, w: World) | Err(w: World)

  /** Sending `sig` to the arguments, the receiver first. */
  function Send(h: Host, env: Env, w: World, sig: string, args: seq<Value>): Answer {
    var (w', r) := h.invoke(w, sig, args);
    match r
    case None => Err(w')
    case Some(v) => Val(v, env, w')
  }

  function ReadVar(h: Host, env: Env, w: World, x: string): Answer {
    match FindLast(Names(env), x)
    case Some(i) => Val(env[i].value, env, w)
    case None => Val(h.load(w, IndexOf(h.moduleNames, x)), env, w)
  }

  function WriteVar(h: Host, env: Env, w: World, x: string, v: Value): Answer {
    match FindLast(Names(env), x)
    case Some(i) => Val(v, env[i := Binding(x, v)], w)
    case None => Val(v, env, h.store(w, IndexOf(h.moduleNames, x), v))
  }

  function Eval(h: Host, e: Expr, env: Env, w: World): (a: Answer)
    ensures a.Val? ==> Names(a.env) == Names(env)
  {
    match e
    case NullLit => Val(Null, env, w)
    case BoolLit(b) => Val(Bool(b), env, w)
    case Lit(v) => Val(v, env, w)
    case Name(x) => ReadVar(h, env, w, x)
    case Assign(x, e1) =>
      var a := Eval(h, e1, env, w);
      if a.Err? then a else WriteVar(h, a.env, a.w, x, a.v)
    case Unary(op, e1) =>
      var a := Eval(h, e1, env, w);
      if a.Err? then a else Send(h, a.env, a.w, UnName(op), [a.v])
    case Infix(op, l, r) =>
      var a := Eval(h, l, env, w);
      if a.Err? then a else
      var b := Eval(h, r, a.env, a.w);
      if b.Err? then b else Send(h, b.env, b.w, InfixSig(op), [a.v, b.v])
    case Getter(recv, name) =>
      var a := Eval(h, recv, env, w);
      if a.Err? then a else Send(h, a.env, a.w, name, [a.v])
    case Setter(recv, name, e1) =>
      var a := Eval(h, recv, env, w);
      if a.Err? then a else
      var b := Eval(h, e1, a.env, a.w);
      if b.Err? then b else Send(h, b.env, b.w, SetterSig(name), [a.v, b.v])
    case And(l, r) =>
      var a := Eval(h, l, env, w);
      if a.Err? then a
      else if Falsy(a.v) then a
      else Eval(h, r, a.env, a.w)
    case Or(l, r) =>
      var a := Eval(h, l, env, w);
      if a.Err? then a
      else if Falsy(a.v) then Eval(h, r, a.env, a.w)
      else a
    case Cond(c, t, f) =>
      var a := Eval(h, c, env, w);
      if a.Err? then a
      else if Falsy(a.v) then Eval(h, f, a.env, a.w)
      else Eval(h, t, a.env, a.w)
  }

  /** How a statement ends. `Timeout` is not an ending: the fuel ran out first. */
  datatype Outcome =
    | Normal(env: Env, w: World)
    | Broke(env: Env, w: World)
    | Returned(v: Value, w: World)
    | Failed(w: World)
    | Timeout

  /** Leaving a block forgets the variables declared in it. */
  function Leave(r: Outcome, n: nat): (r': Outcome)
    ensures (r.Normal? || r.Broke?) && n <= |r.env| ==>
      (r'.Normal? || r'.Broke?) && r'.Normal? == r.Normal? &&
      Names(r'.env) == Names(r.env)[..n] && Values(r'.env) == Values(r.env)[..n]
  {
    match r
    case Normal(env, w) => if n <= |env| then Normal(env[..n], w) else r
    case Broke(env, w) => if n <= |env| then Broke(env[..n], w) else r
    case _ => r
  }

  /** A `break` that reaches its loop ends the loop normally. */
  function EndBreak(r: Outcome): Outcome {
    if r.Broke? then Normal(r.env, r.w) else r
  }

  function Exec(h: Host, s: Stmt, env: Env, w: World, fuel: nat): (r: Outcome)
    ensures r.Normal? || r.Broke? ==> Names(r.env) == Names(env)
    decreases fuel, s, 1
  {
    match s
    case ExprS(e) =>
      var a := Eval(h, e, env, w);
      if a.Err? then Failed(a.w) else Normal(a.env, a.w)
    case IfThen(c, t) =>
      var a := Eval(h, c, env, w);
      if a.Err? then Failed(a.w)
      else if Falsy(a.v) then Normal(a.env, a.w)
      else Exec(h, t, a.env, a.w, fuel)
    case IfElse(c, t, f) =>
      var a := Eval(h, c, env, w);
      if a.Err? then Failed(a.w)
      else if Falsy(a.v) then Exec(h, f, a.env, a.w, fuel)
      else Exec(h, t, a.env, a.w, fuel)
    case While(c, body) =>
      var a := Eval(h, c, env, w);
      if a.Err? then Failed(a.w)
      else if Falsy(a.v) then Normal(a.env, a.w)
      else
        var r := Exec(h, body, a.env, a.w, fuel);
        if !r.Normal? then EndBreak(r)
        else if fuel == 0 then Timeout
        else Exec(h, s, r.env, r.w, fuel - 1)
    case For(x, e, body) =>
      var a := Eval(h, e, env, w);
      if a.Err? then Failed(a.w)
      else
        var hidden := [Binding(SEQ_LOCAL, a.v), Binding(ITER_LOCAL, Null)];
        LeaveNames(a.env, hidden);
        Leave(ExecFor(h, x, body, a.env + hidden, a.w, fuel), |env|)
    case Break => Broke(env, w)
    case Return(e) =>
      var a := Eval(h, e, env, w);
      if a.Err? then Failed(a.w) else Returned(a.v, a.w)
    case Block(b) =>
      Leave(ExecBody(h, b, env, w, fuel), |env|)
  }

  /** The iterations of a `for` loop. The last two variables of `env` are the sequence and the
      iterator. */
  function ExecFor(h: Host, x: string, body: Stmt, env: Env, w: World, fuel: nat): (r: Outcome)
    requires |env| >= 2
    ensures r.Normal? || r.Broke? ==> Names(r.env) == Names(env)
    decreases fuel, body, 2
  {
    var k := |env| - 2;
    var a := Send(h, env, w, ITERATE, [env[k].value, env[k + 1].value]);
    if a.Err? then Failed(a.w)
    else
      var env1 := env[k + 1 := Binding(env[k + 1].name, a.v)];
      if Falsy(a.v) then Normal(env1, a.w)
      else
        var b := Send(h, env1, a.w, ITERATOR_VALUE, [env1[k].value, env1[k + 1].value]);
        if b.Err? then Failed(b.w)
        else
          LeaveNames(env1, [Binding(x, b.v)]);
          var r := Leave(Exec(h, body, env1 + [Binding(x, b.v)], b.w, fuel), |env|);
          if !r.Normal? then EndBreak(r)
          else if fuel == 0 then Timeout
          else ExecFor(h, x, body, r.env, r.w, fuel - 1)
  }

  function ExecBody(h: Host, b: Body, env: Env, w: World, fuel: nat): (r: Outcome)
    ensures r.Normal? ==> Names(r.env) == Names(env) + Declared(b)
    ensures r.Broke? ==> Names(env) <= Names(r.env)
    decreases fuel, b, 1
  {
    match b
    case Done => Normal(env, w)
    case VarThen(x, init, rest) =>
      var a := Eval(h, init, env, w);
      if a.Err? then Failed(a.w)
      else
        LeaveNames(a.env, [Binding(x, a.v)]);
        ExecBody(h, rest, a.env + [Binding(x, a.v)], a.w, fuel)
    case StmtThen(s, rest) =>
      var r := Exec(h, s, env, w, fuel);
      if !r.Normal? then r else ExecBody(h, rest, r.env, r.w, fuel)
  }

  lemma {:induction false} LeaveNames(env: Env, more: Env)
    ensures Names(env + more) == Names(env) + Names(more)
    ensures Values(env + more) == Values(env) + Values(more)
  {
  }

  /** A function whose body is an expression returns its value; one of definitions returns what it
      returns, or null when it falls off its end. A stray `break` is a compile error, so `Broke`
      does not come out of a compiled body. */
  function Call(h: Host, fb: FnBody, frame: Env, w: World, fuel: nat): Outcome {
    match fb
    case ExprBody(e) =>
      var a := Eval(h, e, frame, w);
      if a.Err? then Failed(a.w) else Returned(a.v, a.w)
    case Defs(b) =>
      var r := ExecBody(h, b, frame, w, fuel);
      if r.Normal? then Returned(Null, r.w) else r
  }
}
