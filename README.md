# A verified model of a small C-like language: scopes, type checker, interpreter

This project models the semantic core of a course compiler for a small C-like
language with the types `int`, `double`, `bool` and `void`. The original is
written in Java. The model has three parts.

- **Nested scopes.** Every environment keeps a stack of name-to-value frames,
  innermost last. Lookup scans from the innermost frame outwards and the first
  match wins. Declaring a name already bound in the innermost frame fails.
  Updating rebinds the nearest frame that holds the name. `Scopes` states these
  operations as pure functions on `seq<map<string, T>>` and proves their laws.
  The three `Env` classes are written as Dafny classes and proved against those
  functions:
  - `TypeScopes.Env` models Lab3/Env.java, and the identical private `Env` of
    Lab2/TypeChecker.java;
  - `Interpreter.Env` models the private `Env` of Lab2/Interpreter.java;
  - `CombinedEnv.Env` models Lab2/Env.java.
- **The static type checker** (Lab2/TypeChecker.java).
  - The checker registers the four builtins and every user signature, checks
    `int main()`, then checks every body. Typing uses exact type equality.
  - Expression inference is a pure function, `TypeChecker.Infer`.
  - Statement checking and the whole pass are defined twice:
    - as functions (`CheckStm`, `CheckStms`, `CheckProgram`);
    - as methods that update a `TypeScopes.Env` in place.

    Each method is proved to return what its function returns. The typing rules
    (`TypeRules`) are proved about the functions.
- **The tree-walking interpreter** (Lab2/Interpreter.java), on `int` and `bool`
  values.
  - `Semantics` defines evaluation as pure functions. A non-null statement
    result is a `return` in flight. Frames are pushed and popped around
    `while`, blocks and `if`. Increments update a binding in place. `&&` and
    `||` short-circuit. A call runs in a fresh environment that binds only the
    parameters.
  - Java `null` (an unset variable, a void result) is `None`.
  - Standard input is a sequence of lines already parsed, and standard output
    is the sequence of lines printed.
  - A `fuel` bound counts loop iterations and user calls, so every function
    terminates. Running out is the model's own `OutOfFuel` crash.
    `SemanticsRules` proves that more fuel never changes a result that did not
    run out.
  - Module `Interpreter` holds the mutable `Env` and the visitor methods. Every
    method is proved to agree with `Semantics`, and `Interpreter.Interpret`
    returns exactly `Semantics.RunProgram`.
- Java `int` arithmetic is 32-bit two's complement with wrap-around, and
  division truncates toward zero (`JavaInt`).

Modules:

| module | contents |
|---|---|
| `Wrappers` | the `Option`, `Result` and `Outcome` datatypes |
| `Types` | types and static errors |
| `Syntax` | the abstract syntax and size measures |
| `JavaInt` | Java `int` arithmetic |
| `Scopes` | the frame-stack functions and their laws |
| `TypeScopes` | the type-checking environment class |
| `TypeChecker` | inference, the checking functions and the checker methods |
| `TypeRules` | the typing rules |
| `Semantics` | the evaluation functions |
| `SemanticsRules` | the properties of execution |
| `Interpreter` | the imperative interpreter |
| `CombinedEnv` | the combined environment of Lab2/Env.java |
| `Programs` | two whole programs, a recursive factorial and a straight-line `main`, type-checked and run |

## Model

| member | source | states |
|---|---|---|
| Scopes.Lookup | Lab3/Env.java:29-39 | definition of `lookupVar` on a frame stack; see Scopes.Innermost and Scopes.LookupInnermost |
| Scopes.InCurrent | Lab3/Env.java:41-43 | definition of the duplicate test `getLast().containsKey`; see TypeChecker.DeclareVar |
| Scopes.Declare | Lab3/Env.java:41-48 | definition of `getLast().put`; see Scopes.LookupDeclare and Scopes.DeclareOnlyInnermost |
| Scopes.Rebind | Lab2/Interpreter.java:61-72 | definition of the interpreter's `updateVar`; see Scopes.LookupRebind and Scopes.RebindOnlyNearest |
| Scopes.Push | Lab3/Env.java:59-62 | definition of `newBlock`; see Scopes.PushPop and Scopes.Shadowing |
| Scopes.Pop | Lab3/Env.java:64-67 | definition of `exitBlock` (`pollLast`); see Scopes.PushPop and Scopes.PopEmpty |
| Scopes.Innermost | Lab3/Env.java:29-39 | the index found scanning from the last frame is the innermost frame binding the name, and no index means no frame binds it |
| Scopes.InnermostUnique | Lab3/Env.java:31-37 | the frame where the backwards scan stops is the only innermost frame holding the name |
| Scopes.LookupInnermost | Lab2/TypeChecker.java:40-50 | lookup succeeds exactly when some frame binds the name, and then it returns the innermost binding |
| Scopes.LookupDeclare | Lab3/Env.java:41-48 | after declaring x in the innermost frame, lookup of x gives the new value and lookup of every other name is unchanged |
| Scopes.DeclareOnlyInnermost | Lab2/TypeChecker.java:52-59 | declaring changes only the innermost frame, and the depth stays the same |
| Scopes.LookupRebind | Lab2/Interpreter.java:61-72 | after an update, lookup of the updated name gives the new value if it was bound anywhere; every other lookup is unchanged |
| Scopes.RebindOnlyNearest | Lab2/Interpreter.java:61-72 | an update writes only the nearest frame holding the name and leaves every other frame equal; with no such frame nothing changes; no frame gains or loses a name |
| Scopes.PushPop | Lab3/Env.java:59-67 | entering a block hides no binding and adds exactly one frame, and leaving it restores the stack exactly |
| Scopes.Shadowing | Lab3/Env.java:41-67 | in a new block a name bound outside may be declared again and lookup returns the new binding; after the block the old binding is visible again |
| Scopes.ClearStep | Lab2/TypeChecker.java:143-148 | a list of names is clash-free exactly when its first name is new and the rest are clash-free once it is declared |
| Scopes.ClearAfterOne | Lab2/TypeChecker.java:116-121 | names are clash-free over a frame holding only x exactly when none is x and they are clash-free over an empty frame |
| Scopes.DeclareEachStep | Lab2/TypeChecker.java:143-148 | declaring the first name and then the rest binds every name to its value, adds exactly those names to the innermost frame, and leaves every other name as before |
| Scopes.PopEmpty | Lab3/Env.java:64-67 | leaving a block with no frame does nothing (`pollLast` on an empty list) |
| Syntax.SignatureOf | Lab2/TypeChecker.java:98-104 | a definition's signature lists its parameter types in order and its declared return type |
| JavaInt.Mul | Lab2/Interpreter.java:248-256 | definition of Java `int` `*`, the exact product wrapped to 32 bits; see JavaInt.Wrap and SemanticsRules.ArithRule |
| JavaInt.Add | Lab2/Interpreter.java:266-274 | definition of Java `int` `+`, wrapped; see JavaInt.Wrap, JavaInt.AddOverflow and SemanticsRules.ArithRule |
| JavaInt.Sub | Lab2/Interpreter.java:275-283 | definition of Java `int` `-`, wrapped; see JavaInt.Wrap and SemanticsRules.ArithRule |
| JavaInt.Quot | Lab2/Interpreter.java:257-265 | definition of Java `int` `/`, truncating toward zero and wrapped; see JavaInt.TruncDiv and JavaInt.QuotOverflow |
| JavaInt.Wrap | Lab2/Interpreter.java:252 | the 32-bit result is congruent to the exact result modulo 2^32 and equals it when it fits |
| JavaInt.TruncDiv | Lab2/Interpreter.java:261 | Java division rounds toward zero: the remainder is smaller than the divisor and has the sign of the dividend |
| JavaInt.QuotOverflow | Lab2/Interpreter.java:261 | the least int divided by -1 overflows to itself |
| JavaInt.AddOverflow | Lab2/Interpreter.java:203 | incrementing the largest int gives the least int |
| TypeScopes.Env.Empty | Lab3/Env.java:17-20 | a new environment has no signatures and no frames |
| TypeScopes.Env.LookupFun | Lab3/Env.java:22-27 | the registered signature is returned, and an unknown name fails with "not defined" |
| TypeScopes.Env.LookupVar | Lab3/Env.java:29-39 | the type in the innermost frame holding the name is returned, and a name in no frame fails with "not declared" |
| TypeScopes.Env.UpdateVar | Lab3/Env.java:41-48 | a name already in the innermost frame fails and nothing changes; otherwise only the innermost frame gains the binding; with no frame at all it fails |
| TypeScopes.Env.UpdateFun | Lab3/Env.java:50-57 | a name already registered fails and nothing changes; otherwise the table gains exactly that entry |
| TypeScopes.Env.NewBlock | Lab3/Env.java:59-62 | one empty frame is pushed, and the signatures are unchanged |
| TypeScopes.Env.ExitBlock | Lab3/Env.java:64-67 | the innermost frame is dropped, and an empty stack is left as it is |
| TypeScopes.ShadowThenExit | Lab3/Env.java:29-67 | inside a new block a name may be declared again and lookup sees the new type; after the block the stack is exactly as before and lookup sees the outer type |
| TypeChecker.Builtins | Lab2/TypeChecker.java:87-93 | definition of the four builtin signatures; see TypeRules.RegisterAllOk and TypeRules.BuiltinRedefinitionRejected |
| TypeChecker.RegisterAll | Lab2/TypeChecker.java:96-105 | definition of the registration loop; see TypeRules.RegisterRejectsTaken, TypeRules.RegisterAllOk and TypeRules.RegisterAllSignaturesOnly |
| TypeChecker.ValidMain | Lab2/TypeChecker.java:107-111 | definition of the entry-point test; see TypeRules.EntryPointRequired and TypeRules.MainRegistered |
| TypeChecker.CheckProgram | Lab2/TypeChecker.java:82-125 | definition of the whole pass, which TypeChecker.Typecheck is proved to return; see TypeRules.EntryPointRequired, TypeRules.MainCheckedBeforeBodies and TypeRules.BuiltinRedefinitionRejected |
| TypeChecker.CheckArgs | Lab2/TypeChecker.java:229-237 | definition of the argument loop; see TypeRules.CheckArgsPass, TypeRules.CheckArgsReportsFirstMismatch and TypeRules.ShiftedReport |
| TypeChecker.IsNumeric | Lab2/TypeChecker.java:265-272 | definition of the int-or-double test; see TypeRules.IncrRule and TypeRules.ArithRule |
| TypeChecker.IsComparable | Lab2/TypeChecker.java:292-299 | definition of the bool-int-or-double test; see TypeRules.CompareRule |
| TypeChecker.BoolType | Lab2/TypeChecker.java:292-299 | definition of `boolType`; see TypeRules.CompareRule |
| TypeChecker.SameType | Lab2/TypeChecker.java:274-282 | both operands must infer the same type, which is then the result |
| TypeChecker.Infer | Lab2/TypeChecker.java:206-263 | a variable types exactly when it is bound; a call types only to the declared return type of a known function with the right arity; `++`, `--` and arithmetic types are numeric; comparisons and logic give bool |
| TypeChecker.DeclareVar | Lab2/TypeChecker.java:52-59 | with no frame at all it fails (`getLast` on an empty list); otherwise it fails as a duplicate of x exactly when the innermost frame binds x, and on success x has type t, the frames are those with x added to the innermost one, and every other name is seen as before |
| TypeChecker.DeclareAll | Lab2/TypeChecker.java:143-148 | `int x, y;` succeeds exactly when no name is already in the innermost frame and none repeats; a failure is a duplicate of one of the names; on success every listed name has the declared type, only the innermost frame gained names, exactly the listed ones, and every other name is seen as before |
| TypeChecker.CheckStm | Lab2/TypeChecker.java:137-204 | a checked statement leaves the depth unchanged and touches only the innermost frame; only declarations change the frames at all |
| TypeChecker.PopBack | Lab2/TypeChecker.java:70-78 | leaving a block pushed over a stack, after a check that touched only the innermost frame, gives back exactly the stack before the block |
| TypeChecker.InBlock | Lab2/TypeChecker.java:169-203 | a nested statement is checked in its own frame, and the stack afterwards is the one before |
| TypeChecker.CheckStms | Lab2/TypeChecker.java:127-131 | a checked sequence keeps the depth and the outer frames |
| TypeChecker.DeclareParams | Lab2/TypeChecker.java:118-121 | the parameters are accepted exactly when no name is already in the innermost frame and none repeats; a failure is a duplicate of a parameter name; on success each parameter has its own declared type, only the innermost frame gained names, exactly the parameter names, and every other name is seen as before |
| TypeChecker.CheckDef | Lab2/TypeChecker.java:116-123 | a body checked in its own frame leaves the stack as it was |
| TypeChecker.CheckDefs | Lab2/TypeChecker.java:113-124 | checking all bodies leaves the stack as it was |
| TypeChecker.TypecheckStm | Lab2/TypeChecker.java:133-204 | the statement visitor, updating the environment in place, returns the checking function's verdict and ends with its frames; signatures are unchanged |
| TypeChecker.TypecheckInBlock | Lab2/TypeChecker.java:169-203 | push, check, pop agrees with the block-checking function |
| TypeChecker.TypecheckStms | Lab2/TypeChecker.java:127-131 | the loop over a sequence agrees with the sequence-checking function |
| TypeChecker.Typecheck | Lab2/TypeChecker.java:82-125 | the whole imperative pass returns exactly the verdict of the program-checking function |
| TypeChecker.RegisterDefs | Lab2/TypeChecker.java:96-105 | the registration loop ends with the table the registration function builds, or fails with its error |
| TypeChecker.ArgTypes | Lab2/TypeChecker.java:98-103 | the collected parameter types are the declared ones, in order |
| TypeChecker.TypecheckDef | Lab2/TypeChecker.java:116-123 | one body checked in place agrees with the function checking it in a fresh frame |
| TypeRules.VarRule | Lab2/TypeChecker.java:219 | a variable has type t exactly when lookup finds t; an unbound name is "not declared" |
| TypeRules.CheckArgsPass | Lab2/TypeChecker.java:229-237 | the argument loop passes exactly when every argument infers the parameter type at its position |
| TypeRules.CheckArgsReportsFirstMismatch | Lab2/TypeChecker.java:229-237 | the error names the first argument whose type differs, with its position |
| TypeRules.ShiftedReport | Lab2/TypeChecker.java:229-237 | the reported position counts from where the loop started |
| TypeRules.CallRule | Lab2/TypeChecker.java:221-240 | a call types exactly when the function is known, the arity matches and each argument has its parameter's type; the result is the return type; unknown functions and wrong arity give their errors |
| TypeRules.ArithRule | Lab2/TypeChecker.java:284-290 | arithmetic has type t exactly when both operands have type t and t is int or double |
| TypeRules.CompareRule | Lab2/TypeChecker.java:292-299 | comparisons, `&&` and `\|\|` type exactly when both operands have one type among bool, int and double, and the result is bool |
| TypeRules.IncrRule | Lab2/TypeChecker.java:265-272 | an increment has type t exactly when its operand has type t and t is int or double |
| TypeRules.AssignRule | Lab2/TypeChecker.java:253 | an assignment has type t exactly when both sides have type t |
| TypeRules.InitRule | Lab2/TypeChecker.java:150-157 | an initialisation checks exactly when the value has the declared type and the name is new in the innermost frame; it then binds the name there |
| TypeRules.ReturnRule | Lab2/TypeChecker.java:159-167 | a return checks exactly when "return" is bound and the value has its type |
| TypeRules.ConditionRule | Lab2/TypeChecker.java:169-203 | while and if conditions must be exactly bool; the bodies are checked in a new frame |
| TypeRules.DeclareOne | Lab2/TypeChecker.java:143-148 | declaring one name is one `updateVar` |
| TypeRules.DuplicateInOneBlock | Lab2/TypeChecker.java:143-148 | declaring a name twice in one block is rejected as a duplicate |
| TypeRules.ShadowInNestedBlock | Lab2/TypeChecker.java:181-188 | a name may be declared again in a nested block; afterwards only the outer declaration remains |
| TypeRules.RegisterRejectsTaken | Lab2/TypeChecker.java:96-105 | registering a definition whose name is already in the table fails as a duplicate |
| TypeRules.RegisterAllOk | Lab2/TypeChecker.java:96-105 | successful registration adds exactly the defined names with their signatures and keeps the builtins |
| TypeRules.BuiltinRedefinitionRejected | Lab2/TypeChecker.java:87-105 | a user function named like a builtin makes the program fail as a duplicate |
| TypeRules.EntryPointRequired | Lab2/TypeChecker.java:107-111 | an accepted program defines `int main()` with no parameters |
| TypeRules.RegisterAllSignaturesOnly | Lab2/TypeChecker.java:96-105 | registration depends only on names and signatures, not on bodies |
| TypeRules.MainCheckedBeforeBodies | Lab2/TypeChecker.java:107-113 | without a valid main the verdict is the main error whatever the bodies are |
| TypeRules.ReturnDoubleFromMain | Lab2/TypeChecker.java:159-167 | `int main() { return 1.0; }` is rejected with a return mismatch |
| TypeRules.ReturnFrame | Lab2/TypeChecker.java:116-117 | over any stack, a body's new frame starts holding only "return", bound to the declared return type |
| TypeRules.BodyFrame | Lab2/TypeChecker.java:116-121 | a body's parameters are accepted exactly when none is named "return" and none repeats; then the outer frames are untouched, the body's frame holds exactly "return" and the parameter names, "return" has the return type and each parameter its own type |
| TypeRules.OneReturnBody | Lab2/TypeChecker.java:116-123 | for `t main() { return e; }` the body check fails with e's own error, fails as a return mismatch when e's type is not t, and passes otherwise |
| TypeRules.MainRegistered | Lab2/TypeChecker.java:87-111 | registering `int main()` beside the builtins gives a valid entry point |
| TypeRules.ReturnZeroChecks | Lab2/TypeChecker.java:82-125 | `int main() { return 0; }` is accepted |
| Semantics.LookupVal | Lab2/Interpreter.java:49-59 | definition of the interpreter's `lookupVar`, null when no frame binds the name; see Scopes.LookupInnermost and SemanticsRules.UninitializedReadFails |
| Semantics.Step | Lab2/Interpreter.java:199-245 | definition of the new value of `++` and `--` on an int; see SemanticsRules.PostfixRule and SemanticsRules.PrefixRule |
| Semantics.ArithVal | Lab2/Interpreter.java:248-283 | definition of the four arithmetic operators on values; see SemanticsRules.ArithRule and SemanticsRules.ArithNeedsInts |
| Semantics.CmpVal | Lab2/Interpreter.java:292-347 | definition of the comparisons on values; see SemanticsRules.EqualityRule |
| Semantics.Truth | Lab2/Interpreter.java:358-363 | definition of the right operand's cast to a boolean; see SemanticsRules.LogicOnBools |
| Semantics.Decides | Lab2/Interpreter.java:348-379 | definition of a left operand that decides `&&` or `\|\|`; see SemanticsRules.AndShortCircuit and SemanticsRules.OrShortCircuit |
| Semantics.Call | Lab2/Interpreter.java:388-433 | definition of a call on evaluated arguments; see SemanticsRules.PrintIntRule, SemanticsRules.ReadIntRule, SemanticsRules.TooManyArgumentsRule, SemanticsRules.CallLeavesCallerFrames and SemanticsRules.CallFuel |
| Semantics.BindParams | Lab2/Interpreter.java:426-431 | definition of the callee's parameter frame; see SemanticsRules.BindParamsPositional, SemanticsRules.BindParamsKeeps and SemanticsRules.MissingArgumentUnbound |
| Semantics.RunFunction | Lab2/Interpreter.java:108-118 | definition of running a body in a fresh environment; see SemanticsRules.RunFunctionFuel and Programs.SevenRuns |
| Semantics.FunctionTable | Lab2/Interpreter.java:95-99 | definition of the global function table, a later definition replacing an earlier one; see Interpreter.Interpret |
| Semantics.RunProgram | Lab2/Interpreter.java:91-106 | definition of a whole run, which Interpreter.Interpret is proved to return; see SemanticsRules.RunProgramFuel, Programs.SevenPrintsSeven and Programs.FactProgramPrints |
| Semantics.EvalExp | Lab2/Interpreter.java:181-379 | evaluation keeps the number of frames |
| Semantics.EvalLogic | Lab2/Interpreter.java:348-379 | `&&` and `\|\|` keep the number of frames |
| Semantics.RightOperand | Lab2/Interpreter.java:358-363 | when the right operand decides, the frames are the right operand's |
| Semantics.EvalArgs | Lab2/Interpreter.java:383-386 | there is one value per argument, and the number of frames is kept |
| Semantics.DeclareUnset | Lab2/Interpreter.java:126-131 | unset declarations keep the number of frames |
| Semantics.ExecStm | Lab2/Interpreter.java:120-179 | every statement, including while, block and if-else, ends with as many frames as it began with, even when a return is in flight |
| Semantics.ExecWhile | Lab2/Interpreter.java:146-150 | the loop keeps the number of frames |
| Semantics.Reenter | Lab2/Interpreter.java:147-149 | after a body run the loop keeps the number of frames |
| Semantics.ExecStms | Lab2/Interpreter.java:109-117 | a statement sequence keeps the number of frames |
| SemanticsRules.EvalExpShape | Lab2/Interpreter.java:199-289 | an expression never adds or removes a binding; increments and assignments only change values |
| SemanticsRules.EvalLogicShape | Lab2/Interpreter.java:348-379 | the same for `&&` and `\|\|` |
| SemanticsRules.EvalArgsShape | Lab2/Interpreter.java:383-386 | the same for the argument list |
| SemanticsRules.DeclareUnsetShape | Lab2/Interpreter.java:126-131 | `int x, y;` adds exactly those names to the innermost frame and nothing else |
| SemanticsRules.ExecStmShape | Lab2/Interpreter.java:143-178 | a statement changes the names of no frame but the innermost, which gains exactly the names the statement declares |
| SemanticsRules.IfElseShape | Lab2/Interpreter.java:168-178 | an if-else leaves every frame binding the same names |
| SemanticsRules.PopRestores | Lab2/Interpreter.java:155-165 | popping the frame pushed for a block, after a run that changed no outer frame's names, gives frames binding the same names as before the block |
| SemanticsRules.OuterSameTrans | Lab2/Interpreter.java:109-117 | the outer-frames-unchanged relation composes across consecutive statements |
| SemanticsRules.ExecWhileShape | Lab2/Interpreter.java:143-153 | inside its frame the loop removes no binding and touches no outer frame's names |
| SemanticsRules.ReenterShape | Lab2/Interpreter.java:146-150 | the same after each body run |
| SemanticsRules.ExecStmsShape | Lab2/Interpreter.java:109-117 | the same for a sequence |
| SemanticsRules.BlockHidesDeclarations | Lab2/Interpreter.java:155-165 | a name unbound before a block is still unbound after it |
| SemanticsRules.StmsAppend | Lab2/Interpreter.java:158-162 | running two sequences in a row is running the first, then, unless it crashed or returned, the second |
| SemanticsRules.ReturnSkipsRest | Lab2/Interpreter.java:111-115 | a return with a non-null value skips the rest of the sequence and is its result |
| SemanticsRules.NullReturnFallsThrough | Lab2/Interpreter.java:111-115 | a return whose value is null (a void call) does not stop the sequence |
| SemanticsRules.WhileFalse | Lab2/Interpreter.java:143-153 | a loop whose first test is false runs no body and drops its frame |
| SemanticsRules.WhileStopsAtReturn | Lab2/Interpreter.java:146-150 | a body returning a non-null value ends the loop with that value |
| SemanticsRules.PostfixRule | Lab2/Interpreter.java:199-219 | `x++` / `x--` return the old value and store old ± 1, wrapped at 32 bits; other names keep their values |
| SemanticsRules.PrefixRule | Lab2/Interpreter.java:220-245 | `++x` / `--x` store new = old ± 1 and return it; other names keep their values |
| SemanticsRules.IncrementNonInt | Lab2/Interpreter.java:199-245 | on a non-int variable nothing is stored; postfix returns the old value, prefix returns null |
| SemanticsRules.AssignRule | Lab2/Interpreter.java:284-289 | a non-variable left side fails; otherwise the right value is stored in the nearest binding and returned |
| SemanticsRules.AndShortCircuit | Lab2/Interpreter.java:348-357 | a deciding left operand of `&&` makes the result false whatever the right operand is |
| SemanticsRules.OrShortCircuit | Lab2/Interpreter.java:365-372 | a deciding left operand of `\|\|` makes the result true whatever the right operand is |
| SemanticsRules.LogicOnBools | Lab2/Interpreter.java:348-379 | on two booleans, `&&` and `\|\|` compute conjunction and disjunction |
| SemanticsRules.EqualityRule | Lab2/Interpreter.java:328-347 | `==` and `!=` succeed exactly on two ints or two bools and compare them; mismatched kinds are an error |
| SemanticsRules.ArithRule | Lab2/Interpreter.java:248-283 | on two ints, `*`, `+` and `-` give the wrapped 32-bit result, `/` truncates, and division by zero fails |
| SemanticsRules.ArithNeedsInts | Lab2/Interpreter.java:252-255 | arithmetic on anything but two ints is a cast failure |
| SemanticsRules.ReadOnlyUnchanged | Lab2/Interpreter.java:183-379 | an expression without calls, increments or assignments changes neither the frames nor the I/O |
| SemanticsRules.CallLeavesCallerFrames | Lab2/Interpreter.java:423-433 | a call sees none of the caller's frames: with read-only arguments the caller's frames are unchanged |
| SemanticsRules.ReadOnlyArgs | Lab2/Interpreter.java:383-386 | read-only arguments change neither the frames nor the I/O |
| SemanticsRules.BindParamsPositional | Lab2/Interpreter.java:426-431 | with distinct parameter names, the i-th parameter is bound to the i-th argument value |
| SemanticsRules.BindParamsKeeps | Lab2/Interpreter.java:426-431 | a name that is none of the bound parameters keeps its binding |
| SemanticsRules.MissingArgumentUnbound | Lab2/Interpreter.java:426-431 | a parameter without an argument is not bound at all |
| SemanticsRules.TooManyArgumentsRule | Lab2/Interpreter.java:427-431 | more arguments than parameters is an error |
| SemanticsRules.PrintIntRule | Lab2/Interpreter.java:390-394 | `printInt` appends its first argument (or "null") as one output line and returns null |
| SemanticsRules.ReadIntRule | Lab2/Interpreter.java:401-420 | `readInt` consumes one line and returns its number; an exhausted input or an unparsable line fails |
| SemanticsRules.DeclareUnsetValues | Lab2/Interpreter.java:126-131 | after `int x, y;` each listed name reads as null, and every other name reads as before |
| SemanticsRules.UninitializedReadFails | Lab2/Interpreter.java:189-195 | in any frames, for any type and any list of names, reading one of the names right after `int ...;` declares them is the fatal "used uninitialized" error |
| SemanticsRules.PrintPostIncrement | Lab2/Interpreter.java:390-394 | `printInt(x++)` with x = 5 prints 5 and leaves x = 6 |
| SemanticsRules.EvalExpFuel | Lab2/Interpreter.java:181-379 | more fuel does not change an evaluation that did not run out |
| SemanticsRules.EvalArgsFuel | Lab2/Interpreter.java:383-386 | the same for argument lists |
| SemanticsRules.CallFuel | Lab2/Interpreter.java:381-434 | the same for calls |
| SemanticsRules.RunFunctionFuel | Lab2/Interpreter.java:108-118 | the same for function bodies |
| SemanticsRules.ExecStmFuel | Lab2/Interpreter.java:120-179 | the same for statements |
| SemanticsRules.ExecWhileFuel | Lab2/Interpreter.java:143-153 | the same for loops |
| SemanticsRules.ReenterFuel | Lab2/Interpreter.java:146-150 | the same after each body run |
| SemanticsRules.ReenterContinues | Lab2/Interpreter.java:146-150 | when the loop goes round again, the next test with more fuel gives the same result |
| SemanticsRules.ReenterStops | Lab2/Interpreter.java:146-150 | when the loop stops after a body run, more fuel gives the same result |
| SemanticsRules.ExecStmsFuel | Lab2/Interpreter.java:109-117 | the same for sequences |
| SemanticsRules.RunProgramFuel | Lab2/Interpreter.java:91-106 | the same for whole programs |
| Programs.ParamVisible | Lab2/Interpreter.java:49-59 | inside `fact`, the parameter `n` reads as the argument even under the frame the if-else pushes |
| Programs.TestValue | Lab2/Interpreter.java:292-309 | `n < 2` gives the comparison of the argument with 2 and changes nothing |
| Programs.PredValue | Lab2/Interpreter.java:275-283 | the argument list `(n - 1)` evaluates to the one value n - 1 |
| Programs.ProductValue | Lab2/Interpreter.java:248-256 | `n * fact(n - 1)` is the wrapped product of n and what the inner call returns |
| Programs.BodyResult | Lab2/Interpreter.java:168-178 | `fact`'s body returns the value of the branch the test selects, with the I/O untouched |
| Programs.FactorialCall | Lab2/Interpreter.java:381-434 | `fact(n)` with enough fuel returns the factorial in Java `int` arithmetic, and reads and prints nothing |
| Programs.FactorialOfFive | Lab2/Interpreter.java:381-434 | `fact(5)` returns 120 |
| Programs.FactProgramPrints | Lab2/Interpreter.java:91-106 | `main` printing `fact(5)` outputs exactly the line 120 |
| Programs.FactSig | Lab2/TypeChecker.java:87-111 | the factorial program registers `fact` as int to int beside the builtins and has a valid `main` |
| Programs.FactBranchesCheck | Lab2/TypeChecker.java:169-203 | in `fact`'s frame the test is bool and both returns check in their own frames |
| Programs.FactFrame | Lab2/TypeChecker.java:116-121 | `fact`'s body is checked in one frame binding "return" and `n` to int |
| Programs.FactBodyChecks | Lab2/TypeChecker.java:127-131 | `fact`'s body checks in that frame |
| Programs.FactChecks | Lab2/TypeChecker.java:113-124 | the definition of `fact` checks and leaves the stack empty |
| Programs.FactMainChecks | Lab2/TypeChecker.java:113-124 | the `main` calling `printInt(fact(5))` checks and leaves the stack empty |
| Programs.FactProgramChecks | Lab2/TypeChecker.java:82-125 | the factorial program passes the type checker |
| Programs.SevenDeclares | Lab2/Interpreter.java:126-131 | `int x;` binds x to null |
| Programs.SevenAssigns | Lab2/Interpreter.java:284-289 | `x = 3 + 4;` rebinds x to 7 in place |
| Programs.SevenPrints | Lab2/Interpreter.java:390-394 | `printInt(x);` appends the line 7 to the output |
| Programs.SevenRuns | Lab2/Interpreter.java:108-118 | `int main() { int x; x = 3 + 4; printInt(x); return 0; }` returns 0 after printing 7, with any fuel |
| Programs.SevenPrintsSeven | Lab2/Interpreter.java:91-106 | that program outputs exactly the line 7, with any fuel and any input |
| Programs.SevenExpsCheck | Lab2/TypeChecker.java:206-263 | in its frame the assignment is an int, the print a void call, and "return" an int |
| Programs.SevenStatementsCheck | Lab2/TypeChecker.java:127-131 | the statements after `int x;` check and leave the frame as it was |
| Programs.SevenChecks | Lab2/TypeChecker.java:82-125 | that program passes the type checker |
| Interpreter.Env.Empty | Lab2/Interpreter.java:31-39 | a new environment copies the base function table and has one empty frame |
| Interpreter.Env.LookupFunction | Lab2/Interpreter.java:45-47 | the definition is returned when the name is in the table, and null otherwise |
| Interpreter.Env.LookupVar | Lab2/Interpreter.java:49-59 | the value of the innermost binding is returned, or null when no frame binds the name |
| Interpreter.Env.UpdateVar | Lab2/Interpreter.java:61-72 | only the nearest frame holding the name is rebound; nothing changes when no frame holds it |
| Interpreter.Env.DeclareVar | Lab2/Interpreter.java:74-76 | the name is bound in the innermost frame |
| Interpreter.Env.DeclareFunction | Lab2/Interpreter.java:78-80 | the table gains or replaces that entry |
| Interpreter.Env.NewBlock | Lab2/Interpreter.java:82-84 | one empty frame is pushed |
| Interpreter.Env.ExitBlock | Lab2/Interpreter.java:86-88 | the innermost frame, if any, is dropped |
| Interpreter.Interpreter.EvalExp | Lab2/Interpreter.java:181-196 | evaluating in place gives the value, frames and I/O of the evaluation function, or its error |
| Interpreter.Interpreter.EvalIncr | Lab2/Interpreter.java:199-245 | the increments, in place, agree with the evaluation function |
| Interpreter.Interpreter.EvalArith | Lab2/Interpreter.java:248-283 | the arithmetic operators agree with the evaluation function |
| Interpreter.Interpreter.EvalAss | Lab2/Interpreter.java:284-289 | assignment agrees with the evaluation function |
| Interpreter.Interpreter.EvalCmp | Lab2/Interpreter.java:292-347 | comparisons agree with the evaluation function |
| Interpreter.Interpreter.EvalLogic | Lab2/Interpreter.java:348-379 | `&&` and `\|\|` agree with the evaluation function |
| Interpreter.Interpreter.EvaluateFunction | Lab2/Interpreter.java:381-434 | a call expression agrees with the evaluation function |
| Interpreter.Interpreter.EvalArgs | Lab2/Interpreter.java:383-386 | the argument loop agrees with the argument function |
| Interpreter.Interpreter.Call | Lab2/Interpreter.java:388-433 | a call on evaluated arguments agrees with the call function, and the caller's frames are untouched |
| Interpreter.Interpreter.Print | Lab2/Interpreter.java:390-399 | the print builtins agree with the call function |
| Interpreter.Interpreter.Read | Lab2/Interpreter.java:401-420 | the read builtins agree with the call function |
| Interpreter.Interpreter.CallFunction | Lab2/Interpreter.java:423-433 | a user call agrees with the call function |
| Interpreter.Interpreter.BindArguments | Lab2/Interpreter.java:426-431 | the callee starts with exactly one frame binding the parameters to the arguments, and too many arguments are reported |
| Interpreter.Interpreter.ExecStm | Lab2/Interpreter.java:120-179 | every statement executed in place agrees with the statement function |
| Interpreter.Interpreter.DeclareAll | Lab2/Interpreter.java:126-131 | the declaration loop leaves the frames the unset-declaration function gives |
| Interpreter.Interpreter.ExecWhile | Lab2/Interpreter.java:143-153 | the while loop, in its own frame, agrees with the statement function |
| Interpreter.Interpreter.ExecIfElse | Lab2/Interpreter.java:168-178 | the if-else, in its own frame, agrees with the statement function |
| Interpreter.Interpreter.ExecStms | Lab2/Interpreter.java:108-118 | the statement loop with its break agrees with the sequence function |
| Interpreter.Interpreter.constructor | Lab2/Interpreter.java:91-106 | a new interpreter holds the given function table and input, and has printed nothing |
| Interpreter.Interpret | Lab2/Interpreter.java:91-106 | running a program gives exactly the printed output, or the error, of the program function |
| CombinedEnv.FunctionTable.constructor | Lab2/Env.java:18 | a new table is empty |
| CombinedEnv.Env.Empty | Lab2/Env.java:20-34 | a new environment has empty tables and stacks, normal flow and the default function name |
| CombinedEnv.Env.ForFunction | Lab2/Env.java:132-137 | an environment for a function has one empty frame on each stack and the given table |
| CombinedEnv.Env.LookupFun | Lab2/Env.java:37-42 | the registered signature is returned, and an unknown name fails |
| CombinedEnv.Env.LookupFunction | Lab2/Env.java:45-53 | the registered body is returned, and an unknown name fails |
| CombinedEnv.Env.GetTypeOfVar | Lab2/Env.java:57-67 | the innermost type binding is returned, and a name in no frame fails |
| CombinedEnv.Env.LookupVar | Lab2/Env.java:69-79 | the innermost value binding is returned, and a name in no frame fails |
| CombinedEnv.Env.DeclareVar | Lab2/Env.java:80-87 | a name already in the innermost value frame fails and nothing changes; otherwise only that frame gains the binding |
| CombinedEnv.Env.UpdateVarType | Lab2/Env.java:89-96 | the same on the type frames |
| CombinedEnv.Env.UpdateVar | Lab2/Env.java:98-112 | the update succeeds exactly when some frame binds the name; then only the nearest such frame is rebound; otherwise nothing changes |
| CombinedEnv.Env.UpdateFun | Lab2/Env.java:114-121 | a registered name fails and nothing changes; otherwise the table gains exactly that entry |
| CombinedEnv.Env.UpdateFunction | Lab2/Env.java:123-131 | the same on the shared body table |
| CombinedEnv.Env.NewFunction | Lab2/Env.java:132-137 | the new environment shares this one's body table, has exactly one empty frame on each stack, no signatures and normal flow |
| CombinedEnv.Env.NewBlock | Lab2/Env.java:139-143 | one empty frame is pushed on each stack, so their difference in depth is kept |
| CombinedEnv.Env.ExitBlock | Lab2/Env.java:145-149 | one frame is popped from each stack, and stacks of equal depth stay equal |
| CombinedEnv.Env.GetFlow | Lab2/Env.java:152-154 | the flag is read |
| CombinedEnv.Env.SetFlow | Lab2/Env.java:156-158 | the flag is set |
| CombinedEnv.RegisterFromCallee | Lab2/Env.java:123-137 | a body registered through a callee's environment is visible from the caller's, because the table is shared |
| CombinedEnv.FlowAcrossCalls | Lab2/Env.java:152-158 | the flag reads back the last value set, and a new call environment starts with normal flow |

Rows marked "definition" name a function that is itself the model of the cited lines. It has no contract of its own, and the rows named after "see" state its behaviour.

Some members are proof helpers only and have no row:
- `Interpreter.Agrees`, `Interpreter.CallAgrees`, `Interpreter.Prepend`, `Interpreter.PrependNil` and `Interpreter.PrependCons` relate the interpreter's methods to `Semantics`. The `Interpreter.Interpreter.*` rows use them.
- `TypeChecker.Agrees` and `TypeChecker.SizeSsSuffix` do the same for the checker methods, in the `TypeChecker.Typecheck*` rows.
- `SemanticsRules.OuterSame`, `SemanticsRules.Declared` and `SemanticsRules.ReadOnly` are the relations that the `SemanticsRules.*Shape` rows and the read-only rows are stated with.
- `Scopes.AllClear` is the clash-free condition of the declaration rows.
- In `Programs`, `JavaFactorial`, `CallFrames` and the program constants are the definitions its rows are stated about.

## Left out

- Lab3/CodeGenerator.java and CodeGenerator.java are not part of this model. Both are unfinished and do not compile.
- The parser, the abstract-syntax classes and the pretty-printer are external. The syntax is re-declared as the `Syntax` datatypes.
- Lab2/Function.java has no behaviour of its own. It appears only as the `CombinedEnv.Function` datatype.
- Floating point is not modelled.
  - The checker types `double` fully.
  - The interpreter stops with `DoubleUnsupported` where a double value would be produced: a double literal, or `readDouble`.
  - Mixed int/double arithmetic and comparisons, and double increments, are not modelled.
  - `printDouble` of a non-null value is a cast failure, because no double value can exist.
- Standard input and output are values.
  - Input is a list of lines already parsed; `None` is a line that does not parse as an int.
  - Output is the list of printed lines; `None` is the text "null".
  - `IOException` from `readLine` is not modelled.
  - On a crash the model keeps no output.
- Semantics.Call: `readInt` and `readDouble` are told apart by string value. Lab2/Interpreter.java:412 compares with `==`, which tests reference identity in Java.
- The static `baseEnv` singleton of the interpreter is an explicit function table. It is the `functions` field of `Interpreter.Interpreter` and the argument of `Interpreter.Env.Empty`.
- Running out of fuel is the model's own `OutOfFuel` error, not Java behaviour.
  - The fuel is meant to stand in for running as long as needed: a program that diverges in Java should fail with `OutOfFuel` for every fuel. This correspondence is design intent, not a proved property; what is proved is that more fuel never changes a result that did not run out.
  - Unbounded recursion is one difference. Java ends it with a `StackOverflowError`, which the model has no counterpart for: there it is `OutOfFuel` for every fuel.
- Division by zero is the `DivisionByZero` error; Java throws `ArithmeticException` there. Other Java exceptions are named the same way in `Semantics.RuntimeError`:
  - an invalid cast or a null dereference is `BadCast`;
  - a missing function is `UndefinedFunction`;
  - a missing first argument of a print builtin is `MissingArgument`.
- Interpreter.Env.DeclareVar requires a frame. Lab2/Interpreter.java:75 would throw on an empty stack, which the interpreter never has.
- Interpreter.Interpreter.ExecWhile and the other state-changing methods say nothing about the environment after a crash. Java abandons the run there too.
- CombinedEnv.Env is generic in the value type; Java uses `Object`.
- The type checker reports which check failed, as a `TypeError`, instead of the exception's message text.
