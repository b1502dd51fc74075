# Wren and libuv: a verified model

Wren is a small scripting language; its interpreter embeds the event loop library libuv. This project models the parts
of both whose correctness is hardest to see, and proves what they are for.

**The compiler and the virtual machine.** Wren's compiler makes bytecode in one pass over the tokens, without a syntax
tree. `Syntax` and `Semantics` say what programs are and mean; `Grammar` and `Printing` relate tokens and trees;
`Bytecode`, `CodeGen` and `CodeGenLaws` say what the code of a tree is; `Compiler` is the single pass itself, with
placeholders and backpatching, proved to emit that code (`Emission`, `EmissionStmt`, `Walking`, `Acceptance`); `Vm` is
the machine, and `SimulationExpr`, `SimulationStmt` and `Correctness` prove that it does what the source means;
`LongJumps` is a function for which it does not. `Precedence`, `Truth`, `Operators` and `Refusals` say in other terms,
written out, how operators group, which values are false, what small compiled functions call, and what is refused.

**Functions within functions.** `FunctionSyntax` and `FunctionMeaning` say what programs with closures are and mean:
names are lexical, and functions share the variables of the functions around them. `Closures` resolves names across
functions, and `FunctionCompiler` compiles blocks, loops with breaks, and closures in one pass (`Functions`, `Drafts`);
`Outlines` says what the code of a program is, with the names of the locals at every instruction. `FunctionMachine` runs
that code on variables, step by step; `FunctionSafety` is what holds of every state of a run, `FunctionSimulation` and
`FunctionCorrectness` prove that the run does what the program means, `OwnLocals` tells which functions declare locals,
and `SurplusArguments` what those do with too many arguments; `FunctionTruth` and `FunctionRefusals` say value by value
and in numbers what is false and what is refused. `Upvalues` is the fiber's stack with its list of open
upvalues, `FunctionRuns` the interpreter on it, which refines the machine on variables, and `FunctionPrograms` compiles
and runs. `MethodBinding` is what happens to compiled methods when a class is made.

**Fibers, memory, maps.** `Fibers` is the chain of fibers that call each other, and `FiberRuns` what a call of a fiber
gives. `Heap`, `Marking`, `Sweeping` and `Collector` are the garbage collector; `References` says field by field what an
object refers to. `HashTable`, `ObjMap` and `RangeKeys` are maps.

**libuv.** `ThreadPool`, `ThreadPoolInvariant`, `ThreadPoolSafety` and `ThreadPoolProgress` are the thread pool and the
async wakeup, as the atomic steps of their threads; `ThreadPoolOrder`, `ThreadPoolAsync` and `ThreadPoolCalls` are about
runs: who is served first, what a wakeup comes to, and what the calls come to. `RbShape`, `RbMemory`, `RbBalance`,
`RbOrder` and `RedBlackTree` are the red-black tree of `tree.h`, and `RbWays` reads its balance from the ways down;
`BinaryHeap` is the heap of the timers; `Inet` is the text form of addresses, which `InetTexts` and `InetReading` write
out.

**Strings and paths.** `Utf8`, `StringFind` and `Paths`, with `Directories` for where paths lead; `Octets` is what they
share with `Inet`.

`Wrappers`, `Basics` and `Limits` hold what several modules use.

## Model

| member | source | states |
|---|---|---|
| Correctness.CompiledMeansSource | lib/wren/src/vm/wren_vm.c:771-1316 | For every function whose code is that of its tree and whose operands fit in their bytes, and every frame and world: the machine finishes with a value exactly when the source returns it, aborts exactly when the source fails, with the same effects, runs forever exactly when the source has no outcome for any fuel, and never overflows the stack it reserved or gets stuck. |
| Correctness.CompileFunction | lib/wren/src/vm/wren_compiler.c:3420-3499 | Of tokens of the fragment, a function comes back exactly when they parse and are acceptable (names resolve, constants fit, locals and parameters are new and few enough, jumps are short enough, breaks are in loops); whatever comes back is the code of the tree they parse to. |
| Correctness.WithinFits | lib/wren/src/vm/wren_compiler.c:1183-1213 | In a function of less than 65536 bytes, with at most 256 locals at a time and at most 65536 signatures and module variables, all operands fit. |
| LongJumps.LongJump | lib/wren/src/vm/wren_compiler.c:1594-1602 | A function `if (false) { null; ...; return true }` is accepted as long as its block has at most 65536 bytes; its source returns null; its code returns null if the block has less, and true if it has exactly that many. |
| Correctness.CompileTokens | lib/wren/src/vm/wren_compiler.c:1641-1660 | The same for all tokens, where those outside of the fragment count as not parsing. |
| Correctness.CompilePrinted | lib/wren/src/vm/wren_compiler.c:2659-2686 | Printing any expression with the parentheses it needs and compiling that gives the code of the expression. |
| Correctness.PrintedBody | lib/wren/src/vm/wren_compiler.c:1609-1638 | A printed expression, followed by the brace that ends a body, is the body of that expression. |
| Printing.PrintParseRoundTrip | lib/wren/src/vm/wren_compiler.c:2587-2686 | Parsing a printed expression gives it back and stops where it ends, whatever token follows that does not continue it. `Precedence` says in other terms what the tree is. |
| Precedence.TwoOperators | lib/wren/src/vm/wren_compiler.c:2587-2650 | For any two infix operators, the short-circuit ones included, between any three names: `a x b y c` is parsed as `a x (b y c)` exactly when `y` stands in a later class of a list of twelve classes, from the short-circuit or to `* / %`, or both are the same short-circuit operator; otherwise as `(a x b) y c`. The list is written out, and is not the table of the parser. |
| Precedence.PrefixBindsTighter | lib/wren/src/vm/wren_compiler.c:2036-2046 | `-`, `!` and `~` take the name after them, whatever operator follows or stands before. |
| Precedence.GetterBindsTightest | lib/wren/src/vm/wren_compiler.c:2370-2375 | `.` takes the name before it, before any infix or prefix operator does. |
| Precedence.ConditionalBindsLooser | lib/wren/src/vm/wren_compiler.c:2397-2425 | `?:` leaves the operators in its condition and both of its branches whole. |
| Precedence.ConditionalsGroupRight | lib/wren/src/vm/wren_compiler.c:2415-2419 | `a ? b : c ? d : e` is `a ? b : (c ? d : e)`. |
| Precedence.ConditionalNotBeforeColon | lib/wren/src/vm/wren_compiler.c:2404-2407 | A conditional before the `:` of another is an error. |
| Precedence.AssignmentBindsLoosest | lib/wren/src/vm/wren_compiler.c:2201-2256 | `=` takes all that follows it, and groups to the right. |
| Precedence.SetterBindsLoosest | lib/wren/src/vm/wren_compiler.c:1914-1937 | `a.f =` takes all that follows it. |
| Precedence.AssignmentInBranches | lib/wren/src/vm/wren_compiler.c:2397-2425 | Both branches of `?:` may be assignments. |
| Precedence.NoAssignmentToOperand | lib/wren/src/vm/wren_compiler.c:2669-2678 | What follows an infix operator cannot be assigned to: the expression ends before the `=`. |
| Operators.OperatorsInOrder | lib/wren/src/vm/wren_compiler.c:2587-2650 | A compiled function whose body is `a p b q c` finishes with `v` exactly when two calls of the host give it: first that of the operator which binds more tightly, or else of the left one, each under its written-out name with `(_)`. |
| Operators.PrefixSent | lib/wren/src/vm/wren_compiler.c:2036-2046 | One whose body is a prefix operator and a name calls the method of that name without parameters. |
| Operators.GetterSent | lib/wren/src/vm/wren_compiler.c:1914-1943 | One whose body is `a.f` calls the method `f`. |
| Operators.SetterSent | lib/wren/src/vm/wren_compiler.c:1914-1937 | One whose body is `a.f = b` calls `f=(_)` with both. |
| Operators.ConditionalChooses | lib/wren/src/vm/wren_compiler.c:2397-2425 | One whose body is `a ? b : c` finishes with its third argument if the first is null or false, and otherwise with the second. |
| Operators.AndChooses | lib/wren/src/vm/wren_compiler.c:2377-2385 | One whose body is `a && b` finishes with the first if that is null or false, and otherwise with the second. |
| Operators.OrChooses | lib/wren/src/vm/wren_compiler.c:2387-2395 | One whose body is the short-circuit or of its first two arguments finishes with the second if the first is null or false, and otherwise with the first. |
| Truth.JumpsOnNullAndFalse | lib/wren/src/vm/wren_vm.c:1098-1141 | The three conditional instructions jump on null and on false: where to, and what stays on the stack. |
| Truth.GoesOnOtherwise | lib/wren/src/vm/wren_vm.c:1098-1141 | On true, on every number and on every object JUMP_IF and AND go on and OR jumps. |
| Truth.StatementsFail | lib/wren/src/vm/wren_compiler.c:2947-2996 | `if` and `while` do nothing, and `else` is taken, after a condition that is null or false. |
| Truth.StatementsHold | lib/wren/src/vm/wren_compiler.c:2947-2996 | `if` does its statement and `while` its body, then itself, after any other. |
| Truth.IterationEnds | lib/wren/src/vm/wren_compiler.c:2905-2935 | A `for` loop is over when `iterate(_)` answers null or false, and asks for `iteratorValue(_)` otherwise. |
| Truth.LoopHidesNothing | lib/wren/src/vm/wren_compiler.c:2869-2900 | In the body of a `for` loop every name without a space but that of its variable means what it means outside. |
| Refusals.ParametersAccepted | lib/wren/src/vm/wren_compiler.c:1664-1687 | Parameters are accepted exactly when there are at most 16, of different names of at most 64 bytes. |
| Refusals.NameAccepted | lib/wren/src/vm/wren_compiler.c:2195-2256 | A function that is one name is accepted exactly when that is a parameter, a module variable, or begins with no small letter. |
| Refusals.MethodNameAccepted | lib/wren/src/vm/wren_compiler.c:1776-1795 | The name of a method is accepted exactly when it has at most 64 bytes. |
| Refusals.LocalsAccepted | lib/wren/src/vm/wren_compiler.c:1240-1293 | Variables are accepted exactly when they are new in their scope, have short enough names, and there are at most 256 slots with those there were. |
| Refusals.LiteralsAccepted | lib/wren/src/vm/wren_compiler.c:464-500 | Different literals are accepted exactly when there are at most 65536. |
| SimulationExpr.SimE | lib/wren/src/vm/wren_vm.c:865-1191 | From any frame with room for an expression's peak, its code ends with its value on top of the same stack, and locals and world as its meaning says, or aborts exactly when that is an error. |
| SimulationStmt.SimS | lib/wren/src/vm/wren_vm.c:1083-1191 | The code of a statement reaches its end, breaks to the loop's end with the loop's locals popped, returns, aborts or goes on running exactly as its meaning does. |
| SimulationStmt.SimB | lib/wren/src/vm/wren_compiler.c:1609-1638 | The code of a block's definitions does so too, and at the end the declared variables are on the stack in the order of declaration. |
| SimulationStmt.SimFor | lib/wren/src/vm/wren_compiler.c:2859-2944 | The iterations of a `for` loop, with its two hidden locals and the calls of `iterate` and `iteratorValue`, mean what the loop means. |
| CodeGenLaws.KnownFitsE | lib/wren/src/vm/wren_compiler.c:1183-1213 | In code below 65536 bytes all operands of an expression fit their bytes. |
| CodeGenLaws.KnownFitsS | lib/wren/src/vm/wren_compiler.c:2828-2857 | In code below 65536 bytes all operands of a statement fit, those of loops and of breaks that leave it included. |
| CodeGenLaws.PatchS | lib/wren/src/vm/wren_compiler.c:2835-2855 | Emitting breaks as placeholders and rewriting them at the loop's end gives the same code as knowing the distance beforehand; inner loops keep their own breaks. |
| CodeGenLaws.WalkS | lib/wren/src/vm/wren_compiler.c:2697-2796 | All emitted code can be walked instruction by instruction, and only a pending break is a CODE_END. |
| Bytecode.ShortU16 | lib/wren/src/vm/wren_compiler.c:1183-1187 | An operand of two bytes reads back as what was written exactly when it is below 65536. |
| Bytecode.ArgumentsOf | lib/wren/src/vm/wren_compiler.c:2697-2796 | How many operand bytes every opcode has, the opcodes listed by name. |
| Compiler.Compiler.ParsePrecedence | lib/wren/src/vm/wren_compiler.c:2659-2686 | The single pass fails exactly when the grammar does or the tree is not acceptable; otherwise it has consumed the tokens of the tree and appended the tree's code, counted its stack slots, and only added to the tables. |
| Compiler.Compiler.Expression | lib/wren/src/vm/wren_compiler.c:2690-2693 | The same for a whole expression. |
| Compiler.Compiler.Statement | lib/wren/src/vm/wren_compiler.c:2999-3064 | The same for a statement, whose breaks are left pending within a loop. |
| Compiler.Compiler.ForStatement | lib/wren/src/vm/wren_compiler.c:2859-2944 | The same for a `for` loop. |
| Compiler.Compiler.PatchPending | lib/wren/src/vm/wren_compiler.c:2839-2854 | Walking the body patches every pending break and nothing else, though operand bytes may equal CODE_END. |
| Compiler.Compiler.EndLoop | lib/wren/src/vm/wren_compiler.c:2828-2857 | The exit test, the breaks and the jump back get the right distances, or there is an error exactly when the exit test's is too long. |
| Compiler.Compiler.FinishBody | lib/wren/src/vm/wren_compiler.c:1641-1660 | A body compiles exactly when it parses and is acceptable; then the code is that of its tree, and the maximum of slots that of the tree. |
| Compiler.Compiler.ResolveName | lib/wren/src/vm/wren_compiler.c:2201-2256 | A name is the last local so called, or else a module variable, or, if it does not begin with a small letter, becomes one; otherwise there is an error, and only then. |
| Compiler.Compiler.DeclareVariable | lib/wren/src/vm/wren_compiler.c:1240-1293 | A local is added exactly when its name is new in its scope and there is room. |
| Compiler.Compiler.DeclareParameters | lib/wren/src/vm/wren_compiler.c:1664-1687 | Parameters become the first locals exactly when there are at most 16, all different. |
| Acceptance.SizeB | lib/wren/src/vm/wren_compiler.c:1594-1602 | The size of a block's code, on which it depends whether its jumps are accepted, computed from the tree without the code. |
| Vm.Interpreter.Dispatch | lib/wren/src/vm/wren_vm.c:865-1191 | One instruction changes the machine as the step function says. |
| Vm.Interpreter.RunInterpreter | lib/wren/src/vm/wren_vm.c:771-1316 | A run of the interpreter is that many steps. |
| FunctionCompiler.FunctionCompiler.Program | lib/wren/src/vm/wren_compiler.c:1499-1560 | A program is compiled exactly when it is legal; then its functions, in the order in which they are finished, have the code of the program: the instructions with the names they read and write, the targets of jumps, and at every instruction the names of the locals in scope, slot by slot, and the temporaries. Every name resolves to the innermost local or the upvalue that denotes it, and no plain pop comes after a closure that captures the local popped, in the order of the code. |
| FunctionRefusals.ParametersLegal | lib/wren/src/vm/wren_compiler.c:1664-1687 | A function is legal exactly when it has at most 16 parameters, of different names. |
| FunctionRefusals.ArgumentsLegal | lib/wren/src/vm/wren_compiler.c:1664-1675 | A call is legal exactly when it has at most 16 arguments. |
| FunctionRefusals.LocalsLegal | lib/wren/src/vm/wren_compiler.c:1240-1293 | Different variables are legal exactly when there are at most 256 slots with those there were. |
| FunctionRefusals.NameLegal | lib/wren/src/vm/wren_compiler.c:1456-1481 | A name is legal exactly in the functions around whose scopes have it. |
| FunctionCompiler.FunctionCompiler.Statement | lib/wren/src/vm/wren_compiler.c:2999-3064 | The same for one statement, added to the code so far: which breaks wait for a target, and that they take along exactly the slots older than the loop. |
| FunctionCompiler.FunctionCompiler.WhileStatement | lib/wren/src/vm/wren_compiler.c:2978-2996 | A loop's test and breaks lead to its end and its end to its beginning, where the slots are the same, and none of those has been popped within it. |
| FunctionCompiler.FunctionCompiler.Lookup | lib/wren/src/vm/wren_compiler.c:1456-1481 | A name is read or written as a local or as an upvalue exactly when some function around declares it. |
| FunctionCompiler.FunctionCompiler.Finish | lib/wren/src/vm/wren_compiler.c:1499-1560 | The finished function is as promised, and where it is made into a closure all it captures is there and marked. |
| FunctionCompiler.FunctionCompiler.EmitBreak | lib/wren/src/vm/wren_compiler.c:3001-3019 | A break gives up the locals of the loop, which stay in scope, and waits for its target. |
| Functions.PopSafe | lib/wren/src/vm/wren_compiler.c:1330-1356 | Wherever a run is, a plain pop gives up a variable no closure has. |
| Functions.Backward | lib/wren/src/vm/wren_compiler.c:2828-2857 | A loop's jump back keeps that, though a closure made later in its body may capture what a break before it pops: what is popped within the loop was not there when it began. |
| Functions.CaptureSafe | lib/wren/src/vm/wren_vm.c:1203-1229 | Making a closure keeps it: what is captured is not popped ahead. |
| FunctionSafety.PopIsSafe | lib/wren/src/vm/wren_compiler.c:1341-1352 | In a safe state a plain pop, or a jump's test, gives up a slot whose variable no closure has captured. |
| FunctionSafety.StepSafe | lib/wren/src/vm/wren_vm.c:771-1316 | Every step keeps a state safe, unless it calls a function that declares locals with too many arguments: frames have the slots their code expects, upvalues are there, and what is captured is not popped ahead. |
| FunctionSafety.RunSafe | lib/wren/src/vm/wren_vm.c:771-1316 | So every state of every run is safe, up to such a call. |
| FunctionSimulation.NameIs | lib/wren/src/vm/wren_compiler.c:1456-1481 | Whenever the machine is at an instruction that reads or writes a name, the slot or upvalue it uses is the variable the name means in the scopes of the source. |
| FunctionSimulation.CapturedFits | lib/wren/src/vm/wren_vm.c:1203-1229 | What a closure captures are the variables its upvalues denote, shared with the function that makes it. |
| FunctionSimulation.SimE | lib/wren/src/vm/wren_vm.c:771-1316 | From any frame in scope of its names, the code of an expression ends with its value above the slots there were, memory as its meaning leaves it and no other variable touched; or it fails, comes to a call with too many arguments, or goes on, exactly as its meaning does. |
| FunctionSimulation.SimS | lib/wren/src/vm/wren_compiler.c:2999-3064 | The code of a statement ends with the slots as they were, breaks to the end of its loop with the loop's locals given up, returns from its function, fails or goes on, exactly as its meaning does. |
| FunctionSimulation.SimDefs | lib/wren/src/vm/wren_compiler.c:1609-1638 | After definitions the variables declared are the slots above those there were, in order. |
| FunctionSimulation.SimBody | lib/wren/src/vm/wren_vm.c:1119-1165 | A function from its first instruction to its return gives what its body means, null if that does not say, and its slots are gone. |
| FunctionSimulation.CalleeIs | lib/wren/src/vm/wren_core.c:249-260 | A call is refused by the machine exactly when its meaning refuses it: what is called is no function, or has more parameters than there are arguments; and it shifts locals exactly when the function has fewer and declares locals. |
| OwnLocals.BareIs | lib/wren/src/vm/wren_compiler.c:1240-1293 | A compiled function has slots of its own locals exactly when its source declares some. |
| FunctionCorrectness.CompiledMeansSource | lib/wren/src/vm/wren_vm.c:771-1316 | Of every compiled program: its run finishes with a value exactly when the program returns it, fails exactly when the program does, comes to a call of a function that declares locals with too many arguments exactly when the program does, and runs forever exactly when the program has no outcome for any fuel. |
| FunctionTruth.LiteralChooses | lib/wren/src/vm/wren_vm.c:1098-1105 | A compiled program `if (c) return a`, then `return b`, for any literals: it returns `b` exactly when `c` is null or false, and otherwise `a`. |
| FunctionTruth.FunctionChooses | lib/wren/src/vm/wren_vm.c:1098-1105 | With a function for a condition it returns `a`. |
| FunctionTruth.FailsOnNullAndFalse | lib/wren/src/vm/wren_compiler.c:2947-2976 | After a condition that is null or false `if` and `while` do nothing, and `else` is taken. |
| FunctionTruth.HoldsOnOthers | lib/wren/src/vm/wren_compiler.c:2947-2996 | After true, any number and any function the statement is done; a loop does its body, and then itself unless that breaks, returns or fails. |
| FunctionTruth.JumpsOnNullAndFalse | lib/wren/src/vm/wren_vm.c:1098-1105 | The machine's conditional jump gives up the last value and goes to its target exactly when that is null or false. |
| FunctionCorrectness.AlwaysSafe | lib/wren/src/vm/wren_compiler.c:1330-1356 | Every state of such a run, up to a call with too many arguments, is safe, never stuck, and no plain pop gives up a variable that a closure has. |
| FunctionRuns.Machine.Step | lib/wren/src/vm/wren_vm.c:771-1316 | A step of the interpreter on the fiber, with its stack and upvalues, is the step of the machine on variables, and keeps the invariant unless it calls a function that declares locals with too many arguments. |
| FunctionRuns.Machine.Run | lib/wren/src/vm/wren_vm.c:771-1316 | A run is as many such steps as are asked for, or all up to its end or to such a call. |
| FunctionRuns.Machine.StepMakeClosure | lib/wren/src/vm/wren_vm.c:1203-1229 | A new closure's upvalues, found or made in the list of open ones, stand for the variables its function's code lists. |
| FunctionRuns.Machine.StepCall | lib/wren/src/vm/wren_core.c:249-260 | A call succeeds exactly when a closure with no more parameters than arguments is called; the new frame begins at the function called, with all the arguments. |
| SurplusArguments.LocalIsRead | lib/wren/src/vm/wren_core.c:251-259 | Wherever a compiled function that declares its first local as `c` and returns it is called: what it returns is `c` when there are as many arguments as parameters, and the first argument too many otherwise. |
| SurplusArguments.FirstLocal | lib/wren/src/vm/wren_core.c:251-259 | A whole compiled program that makes this call returns that; so it returns `c` exactly when there are as many arguments as parameters, or the first one too many is `c` itself. |
| FunctionPrograms.CallingItLegal | lib/wren/src/vm/wren_compiler.c:1664-1687 | The compiler accepts these programs. |
| FunctionRuns.Machine.StepReturn | lib/wren/src/vm/wren_vm.c:1119-1165 | A return gives up the frame, closes what was captured of it, and leaves its result as a new variable. |
| FunctionPrograms.CompileAndRun | lib/wren/src/vm/wren_vm.c:1439-1450 | A program is compiled exactly when it is legal; its run makes the steps of the machine on its code from the beginning, as many as asked for or up to its end or a call with too many arguments; and if it has finished or failed, that is what the program means. |
| Closures.Compilers.FindUpvalue | lib/wren/src/vm/wren_compiler.c:1415-1450 | The result is an upvalue that, followed through all functions between, is the variable the name means; none exactly when no function around declares it; what is captured is marked, and everything resolved before stays. |
| Closures.Compilers.AddUpvalue | lib/wren/src/vm/wren_compiler.c:1389-1402 | An upvalue is used again if there is one, and no two of a function are the same. |
| Closures.Compilers.ResolveLocal | lib/wren/src/vm/wren_compiler.c:1370-1382 | The last local so called, or none if there is none. |
| Closures.Compilers.DiscardLocals | lib/wren/src/vm/wren_compiler.c:1330-1356 | Exactly the locals at that depth or deeper are given up, innermost first, and those marked are closed. |
| Closures.MeansOne | lib/wren/src/vm/wren_compiler.c:1415-1450 | A name means at most one variable. |
| Upvalues.Fiber.CaptureUpvalue | lib/wren/src/vm/wren_vm.c:230-269 | All closures that capture a slot get the same upvalue; the list stays sorted by slot, and nobody else is affected. |
| Upvalues.Fiber.CloseUpvalues | lib/wren/src/vm/wren_vm.c:273-287 | Slots are given up, and upvalues that stood for them keep the values; variables mean the same for every other holder. |
| Upvalues.Fiber.Pop | lib/wren/src/vm/wren_vm.c:897-897 | Popping a slot that no closure has keeps every variable. |
| Upvalues.Fiber.CloseUpvalue | lib/wren/src/vm/wren_vm.c:1113-1117 | Closing and popping the last slot keeps every variable. |
| Upvalues.Fiber.Return | lib/wren/src/vm/wren_vm.c:1119-1165 | The frame's slots are closed and given up, and its result is a new variable in place of the first. |
| Upvalues.Fiber.EnsureStack | lib/wren/src/vm/wren_value.c:189-231 | When the stack moves, every frame's and every open upvalue's pointer moves along, and all variables keep their values. |
| Upvalues.Fiber.CallFunction | lib/wren/src/vm/wren_vm.h:175-193 | A frame begins at the arguments, with room for all its slots. |
| Upvalues.Fiber.Closure | lib/wren/src/vm/wren_vm.c:1203-1229 | A closure's upvalues stand for the variables its function's code lists, and no other variable is captured. |
| Upvalues.Fiber.StoreUpvalue | lib/wren/src/vm/wren_vm.c:1035-1040 | Storing through an upvalue changes the one variable it stands for, on the stack or off it. |
| Upvalues.Fiber.LoadUpvalue | lib/wren/src/vm/wren_vm.c:1028-1033 | Loading through an upvalue gives the value of its variable. |
| Upvalues.Fiber.StoreLocal | lib/wren/src/vm/wren_vm.c:902-904 | Storing to a slot changes its variable, and so what open upvalues for it give. |
| MethodBinding.StepIs | lib/wren/src/vm/wren_compiler.c:2697-2796 | At the start of an instruction the walk finds its length, that of CODE_CLOSURE, which depends on the constants, included. |
| MethodBinding.PatchPending | lib/wren/src/vm/wren_compiler.c:2839-2854 | In a body with closures, too, exactly the pending breaks are patched. |
| MethodBinding.BindMethodCode | lib/wren/src/vm/wren_compiler.c:3501-3560 | Binding visits every instruction of a method and of all functions within it: each field moves past the inherited ones, each superclass call gets the superclass, and nothing else changes. |
| MethodBinding.BoundByName | lib/wren/src/vm/wren_compiler.c:3503-3560 | A bound function has the instructions it had: the four that access fields, by name, with the field moved past the inherited ones, all others the same; and the 17 calls of superclass methods have the superclass for their constant. |
| MethodBinding.ClosureMakerFinished | lib/wren/src/vm/wren_compiler.c:3503-3560 | Methods that make closures whose code has any of the four instructions that access fields, with any captures, can be bound. |
| MethodBinding.FieldPlaced | lib/wren/src/vm/wren_vm.c:486-536 | For the four instructions that access fields, by name: in a class that the check of the superclass accepts, every own field comes after the inherited ones and before 255, without wrapping around. |
| MethodBinding.FieldsFit | lib/wren/src/vm/wren_compiler.c:3508-3517 | Fields move as they should exactly when the inherited and own ones are at most 256. |
| Fibers.ChainEndsAtRoot | lib/wren/src/vm/wren_core.c:80-132 | From the running fiber callers never lead to a fiber twice, and end at the one root among them. |
| Fibers.Vm.NewFiber | lib/wren/src/vm/wren_core.c:52-66 | A new fiber can be called, and has only its closure on its stack; the chain and all other fibers are as they were. |
| Fibers.CallersAre | lib/wren/src/vm/wren_core.c:100-105 | The n-th caller of the running fiber is the n-th of the chain, and after the last there is none. |
| Fibers.NoneCallable | lib/wren/src/vm/wren_core.c:80-98 | No fiber that runs or waits can be called or tried. |
| Fibers.Vm.RunFiber | lib/wren/src/vm/wren_core.c:80-132 | A fiber runs exactly when it has no error, no caller, is not the root and has a frame left. One that starts gets the value passed as its parameter, if it has one; one that goes on finds the value, or null, in the last slot of its stack, all below that being as it was. |
| Fibers.Vm.Call | lib/wren/src/vm/wren_core.c:134-142 | The same, and a refused call unwinds to the nearest `try`. |
| Fibers.Vm.TryFiber | lib/wren/src/vm/wren_core.c:185-192 | The same, and the fiber is one whose errors are caught. |
| Fibers.Vm.Yield | lib/wren/src/vm/wren_core.c:194-234 | The caller goes on, with its stack as it was but for the last slot, which has the value yielded, or null; the fiber that yields leaves the chain and can be called again. |
| Fibers.Vm.Abort | lib/wren/src/vm/wren_core.c:65-78 | With null nothing happens; any other value unwinds. |
| Fibers.Vm.Return | lib/wren/src/vm/wren_vm.c:1119-1165 | The frame's slots give way to the result; with the last frame the fiber is finished, and its caller goes on with its stack as it was but for the last slot, which has the result. |
| Fibers.Vm.RuntimeError | lib/wren/src/vm/wren_vm.c:389-420 | The error reaches the fibers up to the nearest tried one, whose caller goes on with its stack as it was but for the last slot, which has the error; if none is tried, the interpreter stops. |
| FiberRuns.CallGivesResult | lib/wren/src/vm/wren_core.c:102-127 | Over runs of operations on fibers: when a fiber that has entered another one goes on, its stack is what it was below the slots of the call, with one value on top, which is the one yielded, returned or raised as an error in the operation that ended its wait; the fibers that waited for it are as they were. |
| FiberRuns.WaitingUntouched | lib/wren/src/vm/wren_core.c:80-130 | While others run above it on the chain, no operation changes a fiber that waits. |
| Collector.Collector.CollectGarbage | lib/wren/src/vm/wren_vm.c:111-197 | Exactly the objects that can be reached are left: the least set with everything that a root or an object in the set refers to, field by field. They are unchanged and unmarked, in their order; the bytes in use and the next collection are counted from them. |
| Collector.Collector.Mark | lib/wren/src/vm/wren_value.c:972-1217 | Exactly the reachable objects are marked, that is the least set with everything that a root or an object in the set refers to, and each is counted once. |
| Collector.Collector.Sweep | lib/wren/src/vm/wren_vm.c:155-171 | Exactly the unmarked objects are unlinked. |
| Collector.NoneDangling | lib/wren/src/vm/wren_vm.c:111-197 | What is left refers to nothing that was freed. |
| References.EdgesMention | lib/wren/src/vm/wren_value.c:1008-1181 | For every kind of object: the edges the collector follows are exactly the objects that its fields refer to, slot by slot and entry by entry, keys and values of maps alike. |
| References.ClosedMentions | lib/wren/src/vm/wren_value.c:1008-1181 | What the collector asks of a heap: what fields refer to is there, closures have the upvalues their functions ask for, and instances the fields of their classes. |
| Collector.RootsMention | lib/wren/src/vm/wren_vm.c:132-155 | The roots are exactly what the machine and the compilers under way refer to, field by field. |
| Collector.ReachedKeeps | lib/wren/src/vm/wren_value.c:1183-1217 | The reachable objects are the least set with all that the roots, and the objects in it, refer to. |
| Marking.SearchEnd | lib/wren/src/vm/wren_value.c:1209-1217 | When the gray stack is empty the marked objects are the reachable ones. |
| Marking.SameSum | lib/wren/src/vm/wren_vm.c:120-124 | Sizes counted in the order of marking add up to those counted in the order of the list. |
| Sweeping.Counted | lib/wren/src/vm/wren_vm.c:155-171 | What was counted while marking is the size of what is left. |
| ObjMap.FindEntry | lib/wren/src/vm/wren_value.c:455-513 | Probing finds the key's entry, or the place where it should go, the first tombstone on the way; if an entry equal to the key hashes as the key does, not finding means the key is in no slot. |
| ObjMap.InsertEntry | lib/wren/src/vm/wren_value.c:519-537 | The table's contents change at that key only, and the result says whether it is new. |
| ObjMap.ObjMap.Resize | lib/wren/src/vm/wren_value.c:540-568 | Moving to another capacity keeps the map. |
| ObjMap.ObjMap.Get | lib/wren/src/vm/wren_value.c:570-576 | The value of the key; none exactly if there is none, provided that an entry equal to the key would hash as the key does. |
| ObjMap.ObjMap.Set | lib/wren/src/vm/wren_value.c:578-595 | The map changes at that key only, growing when the load asks for it; the count, the capacity, the keys and the tombstones are as they should be. |
| ObjMap.ObjMap.Clear | lib/wren/src/vm/wren_value.c:597-603 | The map is empty. |
| ObjMap.ObjMap.RemoveKey | lib/wren/src/vm/wren_value.c:605-639 | The key, if it is found, is gone, all others stay and can still be found, also after the map has shrunk, and the result is the old value. |
| ObjMap.LoadExact | lib/wren/src/vm/wren_value.c:581-588 | The load is exact up to a capacity from which on it wraps around, and always leaves a free slot. |
| HashTable.LookupsRight | lib/wren/src/vm/wren_value.c:455-513 | Lookups are right in all tables of a capacity exactly when equal keys have equal homes there. |
| RangeKeys.HomesDiffer | lib/wren/src/vm/wren_value.c:409-414 | The equal ranges 0..0 and -0..0 have one home in 16 slots, and two in 32. |
| RangeKeys.RangeNotFound | lib/wren/src/vm/wren_value.c:578-595 | A map that has got the ranges 0..0, 1..0, ... 12..0 one after the other, and has grown once, does not find -0..0, which is the same key as 0..0. |
| ThreadPoolInvariant.NextKeeps | lib/wren/deps/libuv/src/threadpool.c:64-113 | Every step of every thread keeps the invariant from which the following is proved; in which order requests are served is `ThreadPoolOrder`. |
| ThreadPoolSafety.ExactlyOnePlace | lib/wren/deps/libuv/src/threadpool.c:64-104 | In every reachable state a request is in exactly one place: in hands, in the pool's queue, in its loop's queue, being drained, or finished. |
| ThreadPoolSafety.PlacedOnce | lib/wren/deps/libuv/src/threadpool.c:180-238 | And it is there only once. |
| ThreadPoolSafety.DoneOnce | lib/wren/deps/libuv/src/threadpool.c:218-238 | The callback of a request runs at most once; it gets UV_ECANCELED exactly if a cancel returned 0; its function ran exactly if none did, and never starts after one. |
| ThreadPoolSafety.NextLater | lib/wren/deps/libuv/src/threadpool.c:192-238 | Nothing that happened to a request is ever undone. |
| ThreadPoolSafety.CancelSucceeds | lib/wren/deps/libuv/src/threadpool.c:192-215 | A cancel succeeds exactly when no worker has taken the request. |
| ThreadPoolSafety.NoLostWakeup | lib/wren/deps/libuv/src/unix/async.c:60-69 | A pending handle always has a readable descriptor, a sender about to write, or the current scan still to come to it. |
| ThreadPoolSafety.DrainToCome | lib/wren/deps/libuv/src/threadpool.c:92-96 | A completion queue with something in it will be drained. |
| ThreadPoolSafety.ReadsReadable | lib/wren/deps/libuv/src/unix/async.c:103-144 | When a loop reads its descriptor, there is something to read. |
| ThreadPoolSafety.WorkerHoldsOne | lib/wren/deps/libuv/src/threadpool.c:64-104 | A worker never holds the pool's lock and a loop's at the same time. |
| ThreadPoolSafety.NoDeadlock | lib/wren/deps/libuv/src/threadpool.c:192-205 | Whenever a thread waits for a lock, some thread can go on. |
| ThreadPoolSafety.NothingLeft | lib/wren/deps/libuv/src/threadpool.c:64-113 | When no thread can go on, and the pool has workers and is not shut down, every request is finished. |
| ThreadPoolOrder.FirstComeFirstServed | lib/wren/deps/libuv/src/threadpool.c:79-109 | Over runs: before a worker finds an item in the queue, workers have found all requests posted before it, but for those that a cancel has withdrawn. This holds of the message to exit too. |
| ThreadPoolOrder.NoneLeftBehind | lib/wren/deps/libuv/src/threadpool.c:79-123 | No worker is on its way out, or gone, while a request that was posted before the message to exit is in the queue. |
| ThreadPoolOrder.CallbacksInOrder | lib/wren/deps/libuv/src/threadpool.c:97-236 | Before the callback of a request those of the requests delivered to its loop before it have run, but for those that a cancel has withdrawn meanwhile. |
| ThreadPoolAsync.SendNotLost | lib/wren/deps/libuv/src/unix/async.c:60-69 | From its first look on, a send has not yet come to its swap, or the handle is pending, or the loop has turned to the handle since. |
| ThreadPoolAsync.SendServed | lib/wren/deps/libuv/src/unix/async.c:60-100 | So before the pool and its loops come to rest the loop has turned to the handle after the send began. |
| ThreadPoolAsync.ServedOnlyIfSent | lib/wren/deps/libuv/src/unix/async.c:93-98 | The loop turns to a handle only if there has been a send since it last did. |
| ThreadPoolAsync.HandlesInOrder | lib/wren/deps/libuv/src/unix/async.c:85-91 | Every scan goes through the handles of a loop in the same order. |
| ThreadPoolAsync.SendReturns | lib/wren/deps/libuv/src/unix/async.c:60-69 | After a send a thread goes on where it was. |
| ThreadPoolCalls.SubmitFinishes | lib/wren/deps/libuv/src/threadpool.c:180-189 | Every submission is of a new request, and at rest, with workers and without a shutdown, its callback has run. |
| ThreadPoolCalls.CancelComesToDecide | lib/wren/deps/libuv/src/threadpool.c:192-215 | At rest every cancel has decided. |
| ThreadPoolCalls.CleanupCompletes | lib/wren/deps/libuv/src/threadpool.c:117-135 | At rest after a cleanup the message to exit has been posted, all workers have left, and the callback of every request posted before the message has run. |
| ThreadPoolCalls.BeginningIs | lib/wren/deps/libuv/src/threadpool.c:140-178 | Runs begin with any number of workers and of loops with any number of handles. |
| ThreadPoolSafety.StepsDefined | lib/wren/deps/libuv/src/threadpool.c:64-104 | A step a thread can take is always defined: no idle count below zero, no item from an empty queue. |
| ThreadPoolProgress.RunLess | lib/wren/deps/libuv/src/threadpool.c:64-104 | Every step of the pool's own brings it closer to rest. |
| ThreadPoolProgress.ComesToRest | lib/wren/deps/libuv/src/unix/async.c:78-100 | Left alone, the pool takes a bounded number of steps, in whatever order its threads move. |
| ThreadPoolProgress.AllFinish | lib/wren/deps/libuv/src/threadpool.c:64-113 | So every request submitted is finished in the end. |
| RedBlackTree.RbTree.Insert | lib/wren/deps/libuv/include/tree.h:592-626 | The node comes in between its neighbours, unless its key is there, and then nothing changes; the tree is sorted, linked both ways and red-black. |
| RedBlackTree.RbTree.Remove | lib/wren/deps/libuv/include/tree.h:532-590 | Exactly that node goes out, all others stay in their order, and the tree is sorted, linked both ways and red-black. |
| RedBlackTree.RbTree.InsertColor | lib/wren/deps/libuv/include/tree.h:406-452 | A tree with one red node below a red one becomes red-black, in the same order. |
| RedBlackTree.RbTree.RemoveColor | lib/wren/deps/libuv/include/tree.h:454-530 | A tree with one black node too few below a place becomes red-black, in the same order. |
| RedBlackTree.RbTree.Rotate | lib/wren/deps/libuv/include/tree.h:342-380 | Relinking pointers turns the tree at a node and keeps the order of all nodes. |
| RedBlackTree.RbTree.Find | lib/wren/deps/libuv/include/tree.h:628-645 | The node with the key, or none if there is none. |
| RedBlackTree.RbTree.NFind | lib/wren/deps/libuv/include/tree.h:647-667 | The first node that is not before the key. |
| RedBlackTree.RbTree.Next | lib/wren/deps/libuv/include/tree.h:669-689 | The node after a node in order, found through the pointers. |
| RedBlackTree.RbTree.Prev | lib/wren/deps/libuv/include/tree.h:691-711 | The node before it. |
| RedBlackTree.RbTree.MinMax | lib/wren/deps/libuv/include/tree.h:713-726 | The first node, or the last. |
| RedBlackTree.RbTree.Foreach | lib/wren/deps/libuv/include/tree.h:738-741 | A walk meets all nodes in order. |
| RbBalance.HeightBound | lib/wren/deps/libuv/include/tree.h:53-62 | The height of a tree of n nodes is at most 2 lg (n + 1). |
| RbWays.RedBlackByWays | lib/wren/deps/libuv/include/tree.h:53-61 | A tree is red-black exactly when all ways down from its root have the same number of black nodes and no two red nodes follow each other. |
| RbWays.WayBound | lib/wren/deps/libuv/include/tree.h:60-61 | No way down from the root of a red-black tree of n nodes is longer than 2 lg (n + 1). |
| RbMemory.RotatedRep | lib/wren/deps/libuv/include/tree.h:342-380 | The pointers a rotation writes represent the turned tree, wherever it stands. |
| RbMemory.SubstitutedRep | lib/wren/deps/libuv/include/tree.h:559-571 | Putting a successor into a removed node's place represents the tree with one node renamed. |
| BinaryHeap.Heap.Insert | lib/wren/deps/libuv/src/heap-inl.h:106-148 | Exactly that node comes in, the pointers form a complete tree, and the order of the heap holds. |
| BinaryHeap.Heap.Remove | lib/wren/deps/libuv/src/heap-inl.h:150-237 | Exactly that node goes out, whichever it is; the rest as before. |
| BinaryHeap.Heap.NodeSwap | lib/wren/deps/libuv/src/heap-inl.h:72-104 | Relinking exchanges a node with its child, and no other pair. |
| BinaryHeap.Heap.Substitute | lib/wren/deps/libuv/src/heap-inl.h:194-218 | A node takes the place of another. |
| BinaryHeap.Heap.Dequeue | lib/wren/deps/libuv/src/heap-inl.h:239-241 | A least node goes out. |
| BinaryHeap.Heap.Follow | lib/wren/deps/libuv/src/heap-inl.h:116-134 | The path leads to the place of the node so numbered, or to the next free one. |
| BinaryHeap.PathTo | lib/wren/deps/libuv/src/heap-inl.h:116-122 | The path holds the bits of the number below its highest, in reverse. |
| BinaryHeap.RootIsLeast | lib/wren/deps/libuv/src/heap-inl.h:67-69 | The node `heap_min` gives is the least. |
| Inet.RoundTrip6 | lib/wren/deps/libuv/src/inet.c:68-154 | Reading the text of any version 6 address, with any run of zeros left out, gives the address. |
| Inet.RoundTrip4 | lib/wren/deps/libuv/src/inet.c:53-65 | Reading the text of any version 4 address gives the address. |
| Inet.WriteThenRead | lib/wren/deps/libuv/src/inet.c:225-309 | Writing and reading, as the code does both, gives the address. |
| Inet.BestRun | lib/wren/deps/libuv/src/inet.c:89-115 | The run of zeros left out is the first of the longest, and none of a single word is. |
| Inet.OneText4 | lib/wren/deps/libuv/src/inet.c:186-222 | Every version 4 address has one text only that is read as it. |
| Inet.InetNtop4 | lib/wren/deps/libuv/src/inet.c:53-65 | The text written is read as the address; and nothing is written only if no text that is read as it is shorter than the buffer. |
| Inet.InetNtop6 | lib/wren/deps/libuv/src/inet.c:68-154 | The text leaves the best run out, is shorter than the buffer it is made in, and is written exactly when it fits. |
| Inet.InetPton4 | lib/wren/deps/libuv/src/inet.c:186-222 | The loop over characters reads exactly the texts the definition by cases accepts. |
| Inet.InetPton6 | lib/wren/deps/libuv/src/inet.c:225-309 | The loop over characters, with its rewinding for a version 4 tail, reads exactly the texts the definition by cases accepts. |
| Inet.Expand | lib/wren/deps/libuv/src/inet.c:289-303 | Shifting in place moves what follows "::" to the end and leaves zeros. |
| Inet.SixOrFive | lib/wren/deps/libuv/src/inet.c:130-132 | A version 4 tail is written only after five or six zero words. |
| InetTexts.TextIs | lib/wren/deps/libuv/src/inet.c:70-155 | What is written, in whole: "::ffff:" and a version 4 address for five zero words and 0xffff, "::" and a version 4 address for six zero words and another word, and otherwise all words, or those before and after the longest run of zeros around "::". |
| InetTexts.LeftOut | lib/wren/deps/libuv/src/inet.c:84-114 | Zeros are left out exactly when two zero words stand side by side; what is left out is as long as any, and the first as long. |
| InetReading.EightGroups | lib/wren/deps/libuv/src/inet.c:225-309 | Groups of base 16 digits with single colons between them are an address exactly when there are eight, of at most four digits each; and then of these numbers. |
| InetReading.AroundTwoColons | lib/wren/deps/libuv/src/inet.c:225-309 | Groups around "::" are an address exactly when there are at most seven, of at most four digits each; and then with zeros for those missing. |
| InetReading.NoLastColon | lib/wren/deps/libuv/src/inet.c:254-263 | No address ends in a single colon after a group. |
| InetReading.TwoColonsOnce | lib/wren/deps/libuv/src/inet.c:254-261 | No address has "::" twice. |
| InetTexts.CaseIgnored | lib/wren/deps/libuv/src/inet.c:225-309 | Reading does not tell upper from lower case. |
| Inet.UvInetPton | lib/wren/deps/libuv/src/inet.c:157-183 | A zone after "%" is left out, and what is before it must be short enough. |
| StringFind.Find | lib/wren/src/vm/wren_value.c:898-957 | The least place where the needle occurs, or none if it occurs nowhere; the shift table is left only where a byte 255 is among those it is used for. |
| StringFind.NoneSkipped | lib/wren/src/vm/wren_value.c:943-953 | No occurrence is nearer than the shift. |
| StringFind.OutOfTableWitness | lib/wren/src/vm/wren_value.c:913-957 | The search leaves the table for a needle with a byte 255 before its end, and for a haystack with one where it looks first, though the needle is in it. |
| Utf8.DecodeEncode | lib/wren/src/vm/wren_utils.c:67-182 | Decoding undoes encoding, whatever follows, and the first byte tells the length. |
| Utf8.Decode | lib/wren/src/vm/wren_utils.c:122-168 | The loop over continuation bytes computes the decoded code point, or none. |
| Utf8.FromRange | lib/wren/src/vm/wren_value.c:724-751 | Whatever the bytes of a string are, a slice fits the buffer whose length was worked out first. |
| Utf8.SliceExact | lib/wren/src/vm/wren_value.c:724-751 | A slice of an encoded string fills it exactly. |
| Utf8.Forwards | lib/wren/src/vm/wren_core.c:1094-1117 | Slicing from the first byte to the last gives the string back. |
| Utf8.Backwards | lib/wren/src/vm/wren_core.c:1094-1117 | Slicing backwards gives the characters in reverse, each of them whole. |
| Utf8.CalculateRange | lib/wren/src/vm/wren_primitive.c:74-125 | The places a range means, exactly when it is within the sequence, counted from the end where negative. |
| Utf8.Subscript | lib/wren/src/vm/wren_core.c:1094-1117 | `s[0..-1]` is `s`, and `s[-1..0]` is its reverse. |
| Paths.Path.Normalize | lib/wren/src/cli/path.c:193-302 | The buffer becomes the normal form, or stays if there are too many components. |
| Paths.Components | lib/wren/src/cli/path.c:193-252 | The loop over characters finds the steps up and the names a path consists of. |
| Paths.NormalMeansSame | lib/wren/src/cli/path.c:193-302 | The normal form leads where the path leads. |
| Paths.NormalTwice | lib/wren/src/cli/path.c:193-302 | Normal forms are their own. |
| Paths.NormalShape | lib/wren/src/cli/path.c:193-302 | ".." only leads, "." is only first, an absolute path has neither, and there are no empty components. |
| Paths.NormalIsCanonical | lib/wren/src/cli/path.c:193-302 | Paths that lead to the same place have the same normal form, if both begin with a dot component or neither does. |
| Directories.NormalLeadsSame | lib/wren/src/cli/path.c:193-302 | From every directory, going through a path component by component (".." to the parent, a name down) leads where going through its normal form leads. |
| Directories.DownAndUp | lib/wren/src/cli/path.c:212-250 | A name followed by ".." may be left out after any separator without changing the normal form, as long as there is room for the name. |
| Directories.NormalText | lib/wren/src/cli/path.c:254-292 | What the normal form looks like: "/" and the names; or the steps up and the names; or "."; or the names, with "./" before them if the path had it. |
| Directories.NamesFit | lib/wren/src/cli/path.c:232-237 | A path down through names has a normal form exactly when there are at most 2048. |
| Paths.TypeKept | lib/wren/src/cli/path.c:100-113 | Exactly when normalizing keeps whether a path is absolute, relative or simple. |
| Paths.DotLosesType | lib/wren/src/cli/path.c:193-302 | "./" becomes ".", which is not relative. |
| Paths.UpLosesType | lib/wren/src/cli/path.c:193-302 | "../" becomes "..", which is not relative. |
| Paths.SimpleGoesUp | lib/wren/src/cli/path.c:193-302 | "a/../../.." becomes "../..", which is relative. |

## Findings

Where the code does less than one might expect, the model does what the code does, and the exact condition is proved:

- `patchJump` accepts a distance of exactly 65536, which two bytes cannot hold (`Bytecode.ShortU16`): the compiler
  accepts functions that do not do what they say (`LongJumps.LongJump`). `endLoop` does not check the jump back; a `for`
  loop adds its hidden locals and its variable without asking whether 256 are there already.
  `Correctness.CompiledMeansSource` therefore asks that all operands fit, which they do within the bounds of
  `Correctness.WithinFits`.
- A map may not find a range that is equal to one it has, because ranges are compared as numbers and hashed by their
  bits (`RangeKeys.RangeNotFound`, a map built by setting keys; `HashTable.LookupsRight` is the exact condition).
- The table of `wrenStringFind` has no entry for byte 255 (`StringFind.OutOfTableWitness`). Without such a byte where
  the table is used `StringFind.Find` is right; a needle with one before its last byte always leaves the table, and so
  does a haystack with one where the search looks first, unless the needle is there.
- A function may be called with more arguments than it has parameters, and these stay on the stack, where the code of
  the function expects its locals. Compiled programs therefore do what they mean up to a call of a function that
  declares locals of its own with more arguments than it has parameters (`FunctionCorrectness.CompiledMeansSource`):
  functions without locals, and calls with as many arguments as parameters, are right. `SurplusArguments.FirstLocal` has,
  for any number of parameters and any arguments, a program that returns its first local: it returns its value exactly
  when there are as many arguments as parameters, or the first argument too many is the same value.
- Normalizing a path may change its type (`Paths.TypeKept`, with three examples).
- A fiber that has finished may be called, and then has a caller for nothing; a root fiber that yields a value leaves it
  on its stack (`Fibers.Vm.Yield`). Neither breaks the chain.
- A request that has been cancelled may be cancelled again until its callback has run; it is then delivered to its loop
  once more, behind others (`ThreadPoolOrder.CallbacksInOrder`), and called back once (`ThreadPoolSafety.DoneOnce`).
- In `inet_ntop6` the case of seven zero words before a version 4 tail never comes up (`Inet.SixOrFive`); in
  `heap_remove` setting the minimum to null again has no effect.
- The field byte of `wrenBindMethodCode` would wrap around beyond 256 fields (`MethodBinding.FieldsFit`); the check in
  `validateSuperclass` excludes that (`MethodBinding.FieldPlaced`).

## Left out

- Correctness.CompiledMeansSource: for functions whose operands fit. Its fragment has literals, names, assignment, unary
  and infix operators, `&&`, `||`, `?:`, getters and setters, blocks, `var`, `if`, `while`, `for`, `break`, `return`;
  method calls with arguments, lists, maps, string interpolation, subscripts, classes and imports are outside of it, and
  calls go to a host that may be anything.
- Correctness.CompileFunction: the limit of 65536 module variables is not modelled, nor the check at the end of a module
  that names used before their definition have been defined. The model stops at the first error, where the compiler goes
  on to report more.
- Printing.PrintParseRoundTrip: that no pair of parentheses is superfluous is not stated.
- Correctness.CompileTokens: tokens outside of the fragment count as not parsing; many of them are Wren.
- Compiler.Compiler.ResolveName: for a function within no other; the functions around are searched in `Closures` and
  `FunctionCompiler`.
- Operators.OperatorsInOrder: of functions whose operands fit, as `Correctness.CompiledMeansSource`; so are the other
  members of `Operators`.
- Vm.Interpreter.Dispatch: the instructions for fields, upvalues, closures, classes and modules are not in the fragment,
  and leave the machine stuck. Closures and upvalues are in `FunctionMachine` and `FunctionRuns`.
- Vm.Interpreter.RunInterpreter: the same.
- FunctionCompiler.FunctionCompiler.Program: the language is what matters to variables: literals, names, assignment,
  functions, calls of them, and the statements but for `for`. The limit of 256 upvalues in a function and the bytes of
  operands are left out. A body that is only an expression is one that returns it.
- FunctionCompiler.FunctionCompiler.Statement: `for` loops are in `Compiler` only.
- FunctionCompiler.FunctionCompiler.Lookup: module variables are in `Compiler` only, and the stop of name lookup at
  classes in `Closures` only.
- FunctionCompiler.FunctionCompiler.Finish: the mark at the end of code and the operand bytes of CODE_CLOSURE are in
  `MethodBinding` only.
- FunctionCorrectness.CompiledMeansSource: runs are followed up to the first call of a function that declares locals
  with too many arguments, and beyond it only for the programs of `SurplusArguments`.
- FunctionRuns.Machine.StepMakeClosure: the closure is pushed after its upvalues are captured, where the interpreter
  pushes it first so that the collector sees it.
- MethodBinding.BindMethodCode: code and constants are values; the functions within a function are copies in its
  constants rather than objects shared with others. That code is finished in the sense of `AllFinished` is a condition,
  not proved of what `FunctionCompiler` emits, whose instructions have no bytes.
- Fibers.Vm.RunFiber: `Fiber.transfer` and `Fiber.suspend`, which leave the chain, are left out.
- ThreadPoolSafety.DoneOnce: starting and closing of handles, failing allocations, the requests other than those of
  `uv_queue_work`, a cancel of a request that is finished, and more than one shutdown are left out; locks and
  condition variables are taken to be fair enough that a thread that can go on does.
- ObjMap.ObjMap.Set: capacities of 2^31 slots and more, at which doubling wraps around, are excluded, and so is a key
  that is equal to an entry but hashes differently, for which a second entry would come in.
- Collector.Collector.CollectGarbage: the growth factor is an exact percentage; sizes of the parts of objects are
  parameters, and memory does not run out. Foreign objects' finalizers are left out.
- StringFind.Find: strings whose lengths add up to 2^32 or more are excluded.
- Inet.InetNtop6: `snprintf` with "%u" and "%x" is taken to write numerals.
- Paths.Path.Normalize: drive letters and backslashes, which only the Windows build knows, and characters that are zero.
- RedBlackTree.RbTree.Insert: the comparison of nodes is that of integer keys.
- BinaryHeap.Heap.Insert: the same.
- The lexer, numbers beyond being compared and hashed, the conversion of numbers to text, symbol tables, the embedding
  interface, the core library in Wren, and the parts of libuv that only call the operating system.
- `queue.h` is a sequence, `wrenReallocate` leaves its values where they are or copies them, and `wrenPowerOf2Ceil` is
  what its name says: these are the easy parts of what uses them.
