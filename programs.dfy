/** Whole programs: a recursive factorial and a small straight-line
    `main`, checked by the type checker and run by the semantics. */
module Programs {
  import opened Wrappers
  import opened Scopes
  import opened Types
  import opened Syntax
  import opened JavaInt
  import opened Semantics
  import TypeChecker
  import TypeRules

  // ---------------------------------------------------------------------
  // Factorial

  /** `n < 2` */
  const FactTest: Exp := ECmp(Lt, EId("n"), EInt(2))

  /** `n - 1` */
  const FactPred: Exp := EArith(Minus, EId("n"), EInt(1))

  /** `n * fact(n - 1)` */
  const FactProduct: Exp := EArith(Times, EId("n"), EApp("fact", [FactPred]))

  /** `int fact(int n) { if (n < 2) return 1; else return n * fact(n - 1); }` */
  const Fact: Def :=
    DFun(TInt, "fact", [ADecl(TInt, "n")], [SIfElse(FactTest, SReturn(EInt(1)), SReturn(FactProduct))])

  /** The factorial as Java `int` arithmetic computes it. */
  function JavaFactorial(n: int32): int32
    decreases n as int
  {
    if n < 2 then 1 else Mul(n, JavaFactorial(n - 1))
  }

  /** The frames of a call of `fact` on `n`: the parameter frame, and the
      frame the `if` pushes over it. */
  function CallFrames(n: int32): VFrames {
    Push([map["n" := Some(IntV(n))]])
  }

  lemma ParamVisible(n: int32)
    ensures LookupVal(CallFrames(n), "n") == Some(IntV(n))
  {
    InnermostUnique(CallFrames(n), "n", 0);
  }

  /** The test `n < 2` reads `n` and changes nothing. */
  lemma TestValue(fns: Functions, fuel: nat, n: int32, io: Io)
    ensures EvalExp(fns, fuel, FactTest, CallFrames(n), io) == Done(Some(BoolV(n < 2)), CallFrames(n), io)
  {
    ParamVisible(n);
  }

  /** The argument list `(n - 1)` evaluates to `n - 1`. */
  lemma PredValue(fns: Functions, fuel: nat, n: int32, io: Io)
    requires n >= 2
    ensures EvalArgs(fns, fuel, [FactPred], CallFrames(n), io) == Done([Some(IntV(n - 1))], CallFrames(n), io)
  {
    ParamVisible(n);
    assert Sub(n, 1) == n - 1;
    assert EvalExp(fns, fuel, FactPred, CallFrames(n), io) == Done(Some(IntV(n - 1)), CallFrames(n), io);
    assert [FactPred][1..] == [];
    assert [Some(IntV(n - 1))] + [] == [Some(IntV(n - 1))];
  }

  /** `n * fact(n - 1)`, given what the inner call returns. */
  lemma ProductValue(fns: Functions, fuel: nat, n: int32, m: int32, io: Io)
    requires n >= 2
    requires Call(fns, fuel, "fact", [Some(IntV(n - 1))], io) == Ok((Some(IntV(m)), io))
    ensures EvalExp(fns, fuel, FactProduct, CallFrames(n), io) == Done(Some(IntV(Mul(n, m))), CallFrames(n), io)
  {
    ParamVisible(n);
    PredValue(fns, fuel, n, io);
    assert EvalExp(fns, fuel, EApp("fact", [FactPred]), CallFrames(n), io) == Done(Some(IntV(m)), CallFrames(n), io);
  }

  /** The body of `fact` returns what the chosen branch returns. */
  lemma BodyResult(fns: Functions, fuel: nat, n: int32, io: Io, v: Option<Value>)
    requires v.Some?
    requires EvalExp(fns, fuel, if n < 2 then EInt(1) else FactProduct, CallFrames(n), io) == Done(v, CallFrames(n), io)
    ensures RunFunction(fns, fuel, Fact, [Some(IntV(n))], io) == Ok((v, io))
  {
    TestValue(fns, fuel, n, io);
    var fr0 := [map["n" := Some(IntV(n))]];
    assert BindParams(map[], Fact.args, [Some(IntV(n))]) == fr0[0] by {
      assert Fact.args[1..] == [] && [Some(IntV(n))][1..] == [];
    }
    assert Pop(CallFrames(n)) == fr0;
    var s := Fact.body[0];
    assert ExecStm(fns, fuel, s, fr0, io) == Done(v, fr0, io);
  }

  /** A call `fact(n)` with at least `n` units of fuel returns the Java
      factorial of `n`, and reads and prints nothing. */
  lemma {:induction false} FactorialCall(fns: Functions, fuel: nat, n: int32, io: Io)
    requires "fact" in fns && fns["fact"] == Fact
    requires fuel >= 1 && fuel >= n as int
    ensures Call(fns, fuel, "fact", [Some(IntV(n))], io) == Ok((Some(IntV(JavaFactorial(n))), io))
    decreases n as int
  {
    if n < 2 {
      BodyResult(fns, fuel - 1, n, io, Some(IntV(1)));
    } else {
      FactorialCall(fns, fuel - 1, n - 1, io);
      ProductValue(fns, fuel - 1, n, JavaFactorial(n - 1), io);
      BodyResult(fns, fuel - 1, n, io, Some(IntV(JavaFactorial(n))));
    }
  }

  /** `fact(5)` is 120. */
  lemma FactorialOfFive(fns: Functions, fuel: nat, io: Io)
    requires "fact" in fns && fns["fact"] == Fact
    requires fuel >= 5
    ensures Call(fns, fuel, "fact", [Some(IntV(5))], io) == Ok((Some(IntV(120)), io))
  {
    FactorialCall(fns, fuel, 5, io);
    assert JavaFactorial(5) == 120;
  }

  /** `int main() { printInt(fact(5)); return 0; }` */
  const FactMain: Def :=
    DFun(TInt, "main", [], [SExp(EApp("printInt", [EApp("fact", [EInt(5)])])), SReturn(EInt(0))])

  const FactProgram: Program := [Fact, FactMain]

  /** The factorial program prints 120 and nothing else, given fuel for
      the five nested calls. */
  lemma FactProgramPrints(fuel: nat, input: seq<Option<int32>>)
    requires fuel >= 5
    ensures RunProgram(FactProgram, fuel, input) == Ok([Some(120)])
  {
    var fns := map["fact" := Fact, "main" := FactMain];
    assert FactProgram[..1] == [Fact] && [Fact][..0] == [];
    assert FunctionTable([Fact]) == map["fact" := Fact];
    assert FunctionTable(FactProgram) == fns;
    var io := Io(input, []);
    FactorialOfFive(fns, fuel, io);
    var inner := EApp("fact", [EInt(5)]);
    var fr: VFrames := [map[]];
    assert [EInt(5)][1..] == [] && [inner][1..] == [];
    assert [Some(IntV(5))] + [] == [Some(IntV(5))] && [Some(IntV(120))] + [] == [Some(IntV(120))];
    assert EvalArgs(fns, fuel, [EInt(5)], fr, io) == Done([Some(IntV(5))], fr, io);
    assert EvalExp(fns, fuel, inner, fr, io) == Done(Some(IntV(120)), fr, io);
    assert EvalArgs(fns, fuel, [inner], fr, io) == Done([Some(IntV(120))], fr, io);
    assert BindParams(map[], FactMain.args, []) == map[];
    assert FactMain.body[1..] == [SReturn(EInt(0))] && FactMain.body[1..][1..] == [];
    var io' := Io(input, [Some(120)]);
    assert io.output + [Some(120)] == io'.output;
    assert Call(fns, fuel, "printInt", [Some(IntV(120))], io) == Ok((None, io'));
    assert ExecStm(fns, fuel, FactMain.body[0], fr, io) == Done(None, fr, io');
    assert ExecStm(fns, fuel, SReturn(EInt(0)), fr, io') == Done(Some(IntV(0)), fr, io');
    assert ExecStms(fns, fuel, FactMain.body[1..], fr, io') == Done(Some(IntV(0)), fr, io');
    assert ExecStms(fns, fuel, FactMain.body, fr, io) == Done(Some(IntV(0)), fr, io');
    assert RunFunction(fns, fuel, FactMain, [], io) == Ok((Some(IntV(0)), io'));
  }

  /** Both definitions pass the type checker. */
  lemma FactProgramChecks()
    ensures TypeChecker.CheckProgram(FactProgram) == Pass
  {
    var sig := FactSig();
    FactChecks(sig);
    FactMainChecks(sig);
    assert FactProgram[1..] == [FactMain] && FactProgram[1..][1..] == [];
    assert TypeChecker.CheckDefs(sig, [], [FactMain]) == Ok([]);
    assert TypeChecker.CheckDefs(sig, [], FactProgram) == Ok([]);
  }

  /** The signature table of the factorial program. */
  lemma FactSig() returns (sig: TypeChecker.Sig)
    ensures TypeChecker.RegisterAll(TypeChecker.Builtins, FactProgram) == Ok(sig)
    ensures TypeChecker.ValidMain(sig)
    ensures "fact" in sig && sig["fact"] == FunType([TInt], TInt)
    ensures "printInt" in sig && sig["printInt"] == FunType([TInt], TVoid)
  {
    sig := TypeChecker.Builtins["fact" := FunType([TInt], TInt)]["main" := FunType([], TInt)];
    assert SignatureOf(Fact) == FunType([TInt], TInt);
    assert SignatureOf(FactMain) == FunType([], TInt);
    assert FactProgram[1..] == [FactMain] && FactProgram[1..][1..] == [];
    var sig1 := TypeChecker.Builtins["fact" := FunType([TInt], TInt)];
    assert "fact" !in TypeChecker.Builtins && "main" !in sig1;
    assert TypeChecker.RegisterAll(sig1, [FactMain]) == Ok(sig);
    assert TypeChecker.RegisterAll(TypeChecker.Builtins, FactProgram) == TypeChecker.RegisterAll(sig1, [FactMain]);
  }

  /** The frame `fact`'s body is checked in. */
  const FactTypeFrames: Frames<Type> := [map["return" := TInt, "n" := TInt]]

  /** `n < 2`, `return 1;` and `return n * fact(n - 1);` all check. */
  lemma FactBranchesCheck(sig: TypeChecker.Sig)
    requires "fact" in sig && sig["fact"] == FunType([TInt], TInt)
    ensures TypeChecker.Infer(sig, FactTypeFrames, FactTest) == Ok(TBool)
    ensures TypeChecker.InBlock(sig, FactTypeFrames, SReturn(EInt(1))) == Ok(FactTypeFrames)
    ensures TypeChecker.InBlock(sig, FactTypeFrames, SReturn(FactProduct)) == Ok(FactTypeFrames)
  {
    var fr := FactTypeFrames;
    InnermostUnique(fr, "n", 0);
    PushPop(fr, "n");
    PushPop(fr, "return");
    InnermostUnique(fr, "return", 0);
    assert TypeChecker.Infer(sig, Push(fr), FactPred) == Ok(TInt);
    assert [FactPred][1..] == [] && [TInt][1..] == [];
    assert TypeChecker.CheckArgs(sig, Push(fr), "fact", [FactPred], [TInt], 0) == Pass;
    assert TypeChecker.Infer(sig, Push(fr), EApp("fact", [FactPred])) == Ok(TInt);
  }

  /** `fact`'s frame: "return" and the parameter `n`, both int. */
  lemma FactFrame()
    ensures TypeChecker.DeclareVar(Push([]), "return", TInt) == Ok([map["return" := TInt]])
    ensures TypeChecker.DeclareParams([map["return" := TInt]], Fact.args) == Ok(FactTypeFrames)
  {
    var fr1: Frames<Type> := [map["return" := TInt]];
    TypeRules.ReturnFrame([], TInt);
    assert [] + [map["return" := TInt]] == fr1;
    assert Fact.args[1..] == [];
    assert Declare(fr1, "n", TInt) == FactTypeFrames;
  }

  /** `fact`'s body checks in that frame. */
  lemma FactBodyChecks(sig: TypeChecker.Sig)
    requires "fact" in sig && sig["fact"] == FunType([TInt], TInt)
    ensures TypeChecker.CheckStms(sig, FactTypeFrames, Fact.body) == Ok(FactTypeFrames)
  {
    FactBranchesCheck(sig);
    assert Fact.body[1..] == [];
    assert TypeChecker.CheckStm(sig, FactTypeFrames, Fact.body[0]) == Ok(FactTypeFrames);
  }

  lemma FactChecks(sig: TypeChecker.Sig)
    requires "fact" in sig && sig["fact"] == FunType([TInt], TInt)
    ensures TypeChecker.CheckDef(sig, [], Fact) == Ok([])
  {
    FactFrame();
    FactBodyChecks(sig);
    assert Pop(FactTypeFrames) == [];
  }

  lemma FactMainChecks(sig: TypeChecker.Sig)
    requires "fact" in sig && sig["fact"] == FunType([TInt], TInt)
    requires "printInt" in sig && sig["printInt"] == FunType([TInt], TVoid)
    ensures TypeChecker.CheckDef(sig, [], FactMain) == Ok([])
  {
    var fr1: Frames<Type> := [map["return" := TInt]];
    TypeRules.ReturnFrame([], TInt);
    assert [] + [map["return" := TInt]] == fr1;
    assert TypeChecker.DeclareParams(fr1, []) == Ok(fr1);
    InnermostUnique(fr1, "return", 0);
    var inner := EApp("fact", [EInt(5)]);
    assert [EInt(5)][1..] == [] && [inner][1..] == [] && [TInt][1..] == [];
    assert TypeChecker.Infer(sig, fr1, inner) == Ok(TInt);
    assert TypeChecker.Infer(sig, fr1, EApp("printInt", [inner])) == Ok(TVoid);
    assert FactMain.body[1..] == [SReturn(EInt(0))] && FactMain.body[1..][1..] == [];
    assert TypeChecker.CheckStms(sig, fr1, FactMain.body) == Ok(fr1);
    assert Pop(fr1) == [];
  }

  // ---------------------------------------------------------------------
  // A straight-line main

  /** `x = 3 + 4` */
  const SetSeven: Exp := EAss(EId("x"), EArith(Plus, EInt(3), EInt(4)))

  /** `printInt(x)` */
  const PrintX: Exp := EApp("printInt", [EId("x")])

  /** `int main() { int x; x = 3 + 4; printInt(x); return 0; }` */
  const Seven: Def :=
    DFun(TInt, "main", [], [SDecls(TInt, ["x"]), SExp(SetSeven), SExp(PrintX), SReturn(EInt(0))])

  /** `main`'s one frame after `int x;`, and after the assignment. */
  const Unset: VFrames := [map["x" := None]]
  const SetFrames: VFrames := [map["x" := Some(IntV(7))]]

  /** `int x;` binds `x` to null. */
  lemma SevenDeclares(fns: Functions, fuel: nat, io: Io)
    ensures ExecStm(fns, fuel, SDecls(TInt, ["x"]), [map[]], io) == Done(None, Unset, io)
  {
    assert ["x"][1..] == [];
  }

  /** `x = 3 + 4;` rebinds `x` to 7 in place. */
  lemma SevenAssigns(fns: Functions, fuel: nat, io: Io)
    ensures ExecStm(fns, fuel, SExp(SetSeven), Unset, io) == Done(None, SetFrames, io)
  {
    assert Add(3, 4) == 7;
    assert ArithVal(Plus, Some(IntV(3)), Some(IntV(4))) == Ok(IntV(7));
    assert EvalExp(fns, fuel, EArith(Plus, EInt(3), EInt(4)), Unset, io) == Done(Some(IntV(7)), Unset, io);
    InnermostUnique(Unset, "x", 0);
    assert Unset[0]["x" := Some(IntV(7))] == SetFrames[0];
    assert Rebind(Unset, "x", Some(IntV(7))) == SetFrames;
    assert EvalExp(fns, fuel, SetSeven, Unset, io) == Done(Some(IntV(7)), SetFrames, io);
  }

  /** `printInt(x);` appends 7 to the output. */
  lemma SevenPrints(fns: Functions, fuel: nat, io: Io)
    ensures ExecStm(fns, fuel, SExp(PrintX), SetFrames, io) ==
              Done(None, SetFrames, io.(output := io.output + [Some(7)]))
  {
    InnermostUnique(SetFrames, "x", 0);
    assert [EId("x")][1..] == [] && [Some(IntV(7))] + [] == [Some(IntV(7))];
    assert EvalArgs(fns, fuel, [EId("x")], SetFrames, io) == Done([Some(IntV(7))], SetFrames, io);
    assert Call(fns, fuel, "printInt", [Some(IntV(7))], io) == Ok((None, io.(output := io.output + [Some(7)])));
    assert EvalExp(fns, fuel, PrintX, SetFrames, io) == Done(None, SetFrames, io.(output := io.output + [Some(7)]));
  }

  /** `main` returns 0 after printing 7, whatever the fuel. */
  lemma SevenRuns(fns: Functions, fuel: nat, io: Io)
    ensures RunFunction(fns, fuel, Seven, [], io) == Ok((Some(IntV(0)), io.(output := io.output + [Some(7)])))
  {
    var io' := io.(output := io.output + [Some(7)]);
    assert BindParams(map[], Seven.args, []) == map[];
    SevenDeclares(fns, fuel, io);
    SevenAssigns(fns, fuel, io);
    SevenPrints(fns, fuel, io);
    var b := Seven.body;
    var e: map<string, Option<Value>> := map[];
    assert b[1..][1..][1..] == [SReturn(EInt(0))] && b[1..][1..][1..][1..] == [];
    assert ExecStm(fns, fuel, SReturn(EInt(0)), SetFrames, io') == Done(Some(IntV(0)), SetFrames, io');
    assert ExecStms(fns, fuel, b[1..][1..][1..], SetFrames, io') == Done(Some(IntV(0)), SetFrames, io');
    assert ExecStms(fns, fuel, b[1..][1..], SetFrames, io) == Done(Some(IntV(0)), SetFrames, io');
    assert ExecStms(fns, fuel, b[1..], Unset, io) == Done(Some(IntV(0)), SetFrames, io');
    assert ExecStms(fns, fuel, b, [e], io) == Done(Some(IntV(0)), SetFrames, io');
  }

  /** The whole program prints exactly `7`. */
  lemma SevenPrintsSeven(fuel: nat, input: seq<Option<int32>>)
    ensures RunProgram([Seven], fuel, input) == Ok([Some(7)])
  {
    assert [Seven][..0] == [];
    assert FunctionTable([Seven]) == map["main" := Seven];
    SevenRuns(map["main" := Seven], fuel, Io(input, []));
    assert Io(input, []).(output := [] + [Some(7)]).output == [Some(7)];
  }

  /** The frame `main`'s body ends in: "return" and `x`, both int. */
  const SevenTypeFrames: Frames<Type> := [map["return" := TInt, "x" := TInt]]

  /** The assignment is an int, the print a void call, and "return" an int. */
  lemma SevenExpsCheck(sig: TypeChecker.Sig)
    requires "printInt" in sig && sig["printInt"] == FunType([TInt], TVoid)
    ensures TypeChecker.Infer(sig, SevenTypeFrames, SetSeven) == Ok(TInt)
    ensures TypeChecker.Infer(sig, SevenTypeFrames, PrintX) == Ok(TVoid)
    ensures Lookup(SevenTypeFrames, "return") == Some(TInt)
  {
    var fr := SevenTypeFrames;
    InnermostUnique(fr, "x", 0);
    InnermostUnique(fr, "return", 0);
    assert [EId("x")][1..] == [] && [TInt][1..] == [];
  }

  /** The three statements after the declaration check in that frame. */
  lemma SevenStatementsCheck(sig: TypeChecker.Sig)
    requires "printInt" in sig && sig["printInt"] == FunType([TInt], TVoid)
    ensures TypeChecker.CheckStms(sig, SevenTypeFrames, Seven.body[1..]) == Ok(SevenTypeFrames)
  {
    var fr := SevenTypeFrames;
    SevenExpsCheck(sig);
    var b := Seven.body[1..];
    assert b[1..][1..] == [SReturn(EInt(0))] && b[1..][1..][1..] == [];
    assert TypeChecker.CheckStm(sig, fr, SExp(SetSeven)) == Ok(fr);
    assert TypeChecker.CheckStm(sig, fr, SExp(PrintX)) == Ok(fr);
    assert TypeChecker.CheckStm(sig, fr, SReturn(EInt(0))) == Ok(fr);
    assert TypeChecker.CheckStms(sig, fr, b[1..][1..]) == Ok(fr);
    assert TypeChecker.CheckStms(sig, fr, b[1..]) == Ok(fr);
  }

  /** The straight-line program passes the type checker. */
  lemma SevenChecks()
    ensures TypeChecker.CheckProgram([Seven]) == Pass
  {
    var sig := TypeRules.MainRegistered(Seven);
    var fr1: Frames<Type> := [map["return" := TInt]];
    TypeRules.ReturnFrame([], TInt);
    assert [] + [map["return" := TInt]] == fr1;
    assert TypeChecker.DeclareParams(fr1, []) == Ok(fr1);
    assert ["x"][1..] == [];
    assert Declare(fr1, "x", TInt) == SevenTypeFrames;
    assert TypeChecker.CheckStm(sig, fr1, Seven.body[0]) == Ok(SevenTypeFrames);
    SevenStatementsCheck(sig);
    assert TypeChecker.CheckStms(sig, fr1, Seven.body) == Ok(SevenTypeFrames);
    assert Pop(SevenTypeFrames) == [];
    assert [Seven][1..] == [];
    assert TypeChecker.CheckDefs(sig, [], [Seven]) == Ok([]);
  }
}
