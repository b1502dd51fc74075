/** What programs of functions within functions mean: names are variables of the nearest scope around that declares
    them, and functions share the variables of the functions around them. */
module FunctionMeaning {
  import opened Wrappers
  import opened FunctionSyntax

  /** A name in scope, and where its variable is in memory. */
  datatype Binding = Binding(name: string, loc: nat)

  /** The names in scope, of each function from the outermost in. */
  type Env = seq<seq<Binding>>

  /** A function that has been made a value: its code, and the names in scope where that happened. */
  datatype Made = Made(params: seq<string>, body: seq<Definition>, env: Env)

  datatype World = World(cells: seq<Value>, closures: seq<Made>)

  /** What an expression does. `Surplus` is a call of a function that has locals with more arguments than it has
      parameters: what such a function does then is not what it says. */
  datatype Answer = Val(v: Value, w: World) | Err | Surplus | OutOfFuel

  /** What statements do; the environment has the variables they have declared. */
  datatype Outcome = Normal(env: Env, w: World) | Broke(w: World) | Returned(v: Value, w: World) | Stopped(a: Answer)

  datatype Values = Values(vs: seq<Value>, w: World) | NoValues(a: Answer)

  function LastOf(scope: seq<Binding>, x: string): (r: Option<nat>)
    ensures r.Some? ==> r.value < |scope| && scope[r.value].name == x
    ensures r.Some? ==> forall j :: r.value < j < |scope| ==> scope[j].name != x
    ensures r.None? ==> forall j :: 0 <= j < |scope| ==> scope[j].name != x
  {
    if scope == [] then None
    else if scope[|scope| - 1].name == x then Some(|scope| - 1)
    else LastOf(scope[..|scope| - 1], x)
  }

  /** The variable a name means: the last one so called in the nearest function that has one. */
  function Lookup(env: Env, x: string): Option<nat> {
    if env == [] then None
    else
      var scope := env[|env| - 1];
      match LastOf(scope, x)
      case Some(i) => Some(scope[i].loc)
      case None => Lookup(env[..|env| - 1], x)
  }

  function Get(w: World, loc: nat): Value {
    if loc < |w.cells| then w.cells[loc] else Null
  }

  function Put(w: World, loc: nat, v: Value): World {
    if loc < |w.cells| then w.(cells := w.cells[loc := v]) else w
  }

  /** A new variable of the innermost function. */
  function Declare(env: Env, w: World, x: string, v: Value): (Env, World)
    requires env != []
  {
    (env[|env| - 1 := env[|env| - 1] + [Binding(x, |w.cells|)]], w.(cells := w.cells + [v]))
  }

  /** The variables a function begins with: itself, which has no name, and its parameters. */
  function Parameters(params: seq<string>, loc: nat): seq<Binding> {
    [Binding("", loc)] + seq(|params|, i requires 0 <= i < |params| => Binding(params[i], loc + 1 + i))
  }

  /** A function that declares no variables but its parameters. */
  predicate Bare(body: seq<Definition>)
    decreases body, 0
  {
    forall i :: 0 <= i < |body| ==> BareDef(body[i])
  }

  predicate BareDef(def: Definition)
    decreases def, 1
  {
    def.Plain? && BareStmt(def.s)
  }

  predicate BareStmt(stmt: Stmt)
    decreases stmt, 1
  {
    match stmt
    case Block(parts) => Bare(parts)
    case If(_, a) => BareStmt(a)
    case IfElse(_, a, b) => BareStmt(a) && BareStmt(b)
    case While(_, a) => BareStmt(a)
    case _ => true
  }

  function Eval(e: Expr, env: Env, w: World, fuel: nat): Answer
    decreases fuel, e, 0
  {
    match e
    case Constant(v) => Val(v, w)
    case Name(x) => (match Lookup(env, x) case Some(loc) => Val(Get(w, loc), w) case None => Err)
    case Assign(x, e1) =>
      var a := Eval(e1, env, w, fuel);
      if !a.Val? then a
      else (match Lookup(env, x) case Some(loc) => Val(a.v, Put(a.w, loc, a.v)) case None => Err)
    case Fn(params, body) => Val(Closure(|w.closures|), w.(closures := w.closures + [Made(params, body, env)]))
    case CallOf(callee, args) =>
      var a := Eval(callee, env, w, fuel);
      if !a.Val? then a
      else
        var r := EvalArgs(args, |args|, env, a.w, fuel);
        if r.NoValues? then r.a
        else
          match Callee(a.v, |args|, r.w)
          case Refused(why) => why
          case Accepted(c) => if fuel == 0 then OutOfFuel else Apply(c, a.v, r.vs, r.w, fuel - 1)
  }

  /** The first `n` arguments, in order. */
  function EvalArgs(args: seq<Expr>, n: nat, env: Env, w: World, fuel: nat): (r: Values)
    requires n <= |args|
    ensures r.Values? ==> |r.vs| == n
    decreases fuel, args, n
  {
    if n == 0 then Values([], w)
    else
      var r := EvalArgs(args, n - 1, env, w, fuel);
      if r.NoValues? then r
      else
        var a := Eval(args[n - 1], env, r.w, fuel);
        if a.Val? then Values(r.vs + [a.v], a.w) else NoValues(a)
  }

  datatype Called = Accepted(c: Made) | Refused(why: Answer)

  /** What a call of `f` with `m` arguments calls. */
  function Callee(f: Value, m: nat, w: World): (r: Called)
    ensures r.Accepted? ==> |r.c.params| <= m
    ensures r.Refused? ==> r.why == Err || r.why == Surplus
  {
    if !f.Closure? || f.id >= |w.closures| then Refused(Err)
    else
      var c := w.closures[f.id];
      if |c.params| > m then Refused(Err)
      else if |c.params| < m && !Bare(c.body) then Refused(Surplus)
      else Accepted(c)
  }

  /** A call: the function and its arguments are new variables; arguments beyond the parameters are ignored. */
  function Apply(c: Made, f: Value, vs: seq<Value>, w: World, fuel: nat): Answer
    requires |c.params| <= |vs|
    decreases fuel
  {
    var env := c.env + [Parameters(c.params, |w.cells|)];
    OutcomeOf(ExecDefs(c.body, |c.body|, env, w.(cells := w.cells + [f] + vs[..|c.params|]), fuel))
  }

  /** A function that does not return by itself returns null. */
  function OutcomeOf(r: Outcome): Answer {
    match r
    case Normal(_, w) => Val(Null, w)
    case Broke(w) => Val(Null, w)
    case Returned(v, w) => Val(v, w)
    case Stopped(a) => a
  }

  /** The first `n` definitions, in order. */
  function ExecDefs(body: seq<Definition>, n: nat, env: Env, w: World, fuel: nat): (r: Outcome)
    requires n <= |body| && env != []
    ensures r.Normal? ==> r.env != []
    decreases fuel, body, n
  {
    if n == 0 then Normal(env, w)
    else
      var r := ExecDefs(body, n - 1, env, w, fuel);
      if r.Normal? then ExecDef(body[n - 1], r.env, r.w, fuel) else r
  }

  function ExecDef(def: Definition, env: Env, w: World, fuel: nat): (r: Outcome)
    requires env != []
    ensures r.Normal? ==> r.env != []
    decreases fuel, def, 0
  {
    match def
    case Var(x, init) =>
      var a := Eval(init, env, w, fuel);
      if !a.Val? then Stopped(a)
      else
        var (env', w') := Declare(env, a.w, x, a.v);
        Normal(env', w')
    case Plain(stmt) => Exec(stmt, env, w, fuel)
  }

  function Exec(stmt: Stmt, env: Env, w: World, fuel: nat): (r: Outcome)
    requires env != []
    ensures r.Normal? ==> r.env == env
    decreases fuel, stmt, 0
  {
    match stmt
    case Do(e) =>
      var a := Eval(e, env, w, fuel);
      if a.Val? then Normal(env, a.w) else Stopped(a)
    case ReturnOf(e) =>
      var a := Eval(e, env, w, fuel);
      if a.Val? then Returned(a.v, a.w) else Stopped(a)
    case Break => Broke(w)
    case Block(parts) =>
      var r := ExecDefs(parts, |parts|, env, w, fuel);
      if r.Normal? then Normal(env, r.w) else r
    case If(cond, t) =>
      var a := Eval(cond, env, w, fuel);
      if !a.Val? then Stopped(a) else if Falsy(a.v) then Normal(env, a.w) else Exec(t, env, a.w, fuel)
    case IfElse(cond, t, f) =>
      var a := Eval(cond, env, w, fuel);
      if !a.Val? then Stopped(a) else Exec(if Falsy(a.v) then f else t, env, a.w, fuel)
    case While(cond, body) =>
      var a := Eval(cond, env, w, fuel);
      if !a.Val? then Stopped(a)
      else if Falsy(a.v) then Normal(env, a.w)
      else
        var r := Exec(body, env, a.w, fuel);
        if r.Broke? then Normal(env, r.w)
        else if !r.Normal? then r
        else if fuel == 0 then Stopped(OutOfFuel)
        else Exec(stmt, env, r.w, fuel - 1)
  }

  /** What a program does: a function without parameters, in an empty memory. */
  function Meaning(body: seq<Definition>, fuel: nat): Answer {
    OutcomeOf(ExecDefs(body, |body|, [Parameters([], 0)], World([Null], []), fuel))
  }
}
