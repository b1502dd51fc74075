/** Programs of functions within functions, compiled and run. */
module FunctionPrograms {
  import opened Basics
  import opened Closures
  import opened FunctionSyntax
  import opened Functions
  import opened Outlines
  import opened FunctionCompiler
  import opened FunctionRuns
  import opened FunctionCorrectness
  import opened SurplusArguments
  import opened Limits
  import M = FunctionMachine

  /** What has been returned or has failed is what the program means. */
  ghost predicate Rightly(body: seq<Definition>, status: M.Status) {
    match status
    case Running => true
    case Finished(v) => Returns(body, v)
    case Failed => Aborts(body)
    case Stuck => false
  }

  /** A program is compiled exactly when it is legal. Its run makes `made` steps of the code of the program: as many
      as it may, or up to its end, or to a call of a function that has locals with too many arguments. If it has
      ended, that is what the program means. */
  method CompileAndRun(body: seq<Definition>, steps: nat) returns (machine: Machine?, made: nat)
    ensures machine != null <==> LegalD([Params([])], 0, body, false)
    ensures machine != null ==> fresh(machine) && machine.Inv() && Compiled(machine.fns, body) && made <= steps
    ensures machine != null ==>
              && machine.Abs() == M.Run(machine.fns, Begin(machine.fns), made)
              && M.Clean(machine.fns, Begin(machine.fns), made)
              && (made < steps ==> machine.status != M.Running || M.Shifts(machine.fns, machine.Abs()))
    ensures machine != null ==> Rightly(body, machine.status)
  {
    hide OfFunction, ProgramOk, LegalD, Returns, Aborts, M.Run, M.Shifts;
    var compiler := new FunctionCompiler();
    assert OutlinesOf([]) == [];
    var ok, main := compiler.Program(body);
    machine, made := null, 0;
    if ok {
      machine := new Machine(compiler.fns, main);
      made := machine.Run(steps);
      assert machine.Abs() == M.Run(machine.fns, Begin(machine.fns), made);
      ItIsRight(machine.fns, body, made);
    }
  }

  lemma {:induction false} ItIsRight(fns: seq<Function>, body: seq<Definition>, n: nat)
    requires Compiled(fns, body) && M.Clean(fns, Begin(fns), n)
    ensures Rightly(body, M.Run(fns, Begin(fns), n).status)
  {
    hide OfFunction, ProgramOk, Returns, Aborts, M.Run, M.Shifts, M.Clean;
    CompiledMeansSource(fns, body);
    AlwaysSafe(fns, body, n);
  }

  // ----- An argument too many -------------------------------------------------------------------------------

  /** The compiler accepts the programs of `FirstLocal`. */
  lemma {:induction false} CallingItLegal(params: seq<string>, x: string, c: Literal, args: seq<Literal>)
    requires Distinct(params) && |params| <= MAX_PARAMETERS && |args| <= MAX_PARAMETERS && x != "" && x !in params
    ensures LegalD([Params([])], 0, CallingIt(params, x, c, args), false)
  {
    hide Params;
    OneLocalLegal(params, x, c);
    var call := CallOf(Fn(params, OneLocal(x, c)), Constants(args));
    assert LegalE([Params([])], call) by {
      forall i | 0 <= i < |args| ensures LegalE([Params([])], Constants(args)[i]) {
        assert Constants(args)[i] == Expr.Constant(args[i]);
      }
      assert [Params([])] + [Params(params)] == [Params([]), Params(params)];
    }
    assert LegalOne([Params([])], 0, Plain(ReturnOf(call)), false);
  }

  lemma {:induction false} OneLocalLegal(params: seq<string>, x: string, c: Literal)
    requires |params| <= MAX_PARAMETERS && x != "" && x !in params
    ensures LegalD([Params([]), Params(params)], 0, OneLocal(x, c), false)
  {
    var body := OneLocal(x, c);
    var env := [Params([]), Params(params)];
    var env1 := Then(env, 0, body[0]);
    var own := Params(params);
    forall i | 0 <= i < |own| ensures !(own[i].name == x && own[i].depth == 0) {
      assert i > 0 ==> own[i] == NameAt(params[i - 1], 0);
    }
    assert !Taken(own, x, 0);
    assert LegalOne(env, 0, body[0], false);
    var scope := env1[1];
    assert scope[|scope| - 1] == NameAt(x, 0);
    assert KnownIn(scope, x);
    assert LegalE(env1, Name(x));
    assert body[1..] == [body[1]];
    assert LegalOne(env1, 0, body[1], false);
    assert LegalD(env1, 0, body[1..], false);
  }
}
