/** The typing rules of Lab2/TypeChecker.java, proved about the checker
    functions of module `TypeChecker`. */
module TypeRules {
  import opened Wrappers
  import opened Scopes
  import opened Types
  import opened Syntax
  import opened TypeChecker

  // ---------------------------------------------------------------------
  // Expressions

  /** A variable has the type of its innermost binding. */
  lemma VarRule(sig: Sig, fr: Frames<Type>, x: string, t: Type)
    ensures Infer(sig, fr, EId(x)) == Ok(t) <==> Lookup(fr, x) == Some(t)
    ensures Lookup(fr, x).None? ==> Infer(sig, fr, EId(x)) == Err(UndeclaredVar(x))
  {
  }

  /** The argument loop passes exactly when every argument infers the
      parameter type at its position. */
  lemma {:induction false} CheckArgsPass(sig: Sig, fr: Frames<Type>, f: string, args: seq<Exp>, params: seq<Type>, pos: nat)
    requires |args| == |params|
    ensures CheckArgs(sig, fr, f, args, params, pos) == Pass <==>
            forall i :: 0 <= i < |args| ==> Infer(sig, fr, args[i]) == Ok(params[i])
    decreases |args|
  {
    if args != [] {
      CheckArgsPass(sig, fr, f, args[1..], params[1..], pos + 1);
      assert forall i :: 1 <= i < |args| ==> args[1..][i - 1] == args[i] && params[1..][i - 1] == params[i];
    }
  }

  /** The first argument whose type differs from its parameter is the one
      reported, with its position counted from zero. */
  lemma {:induction false} CheckArgsReportsFirstMismatch(sig: Sig, fr: Frames<Type>, f: string, args: seq<Exp>, params: seq<Type>, k: nat, t: Type)
    requires |args| == |params| && k < |args|
    requires forall i :: 0 <= i < k ==> Infer(sig, fr, args[i]) == Ok(params[i])
    requires Infer(sig, fr, args[k]) == Ok(t) && t != params[k]
    ensures CheckArgs(sig, fr, f, args, params, 0) == Fail(ArgumentMismatch(f, k, params[k], t))
  {
    ShiftedReport(sig, fr, f, args, params, 0, k, t);
  }

  lemma {:induction false} ShiftedReport(sig: Sig, fr: Frames<Type>, f: string, args: seq<Exp>, params: seq<Type>, pos: nat, k: nat, t: Type)
    requires |args| == |params| && k < |args|
    requires forall i :: 0 <= i < k ==> Infer(sig, fr, args[i]) == Ok(params[i])
    requires Infer(sig, fr, args[k]) == Ok(t) && t != params[k]
    ensures CheckArgs(sig, fr, f, args, params, pos) == Fail(ArgumentMismatch(f, pos + k, params[k], t))
    decreases k
  {
    if k > 0 {
      assert Infer(sig, fr, args[0]) == Ok(params[0]);
      assert forall i :: 0 <= i < k - 1 ==> args[1..][i] == args[i + 1] && params[1..][i] == params[i + 1];
      ShiftedReport(sig, fr, f, args[1..], params[1..], pos + 1, k - 1, t);
    }
  }

  /** A call is well typed exactly when the function is registered, the
      argument count equals the parameter count and each argument has the
      parameter type at its position; its type is the return type. */
  lemma CallRule(sig: Sig, fr: Frames<Type>, f: string, args: seq<Exp>)
    ensures Infer(sig, fr, EApp(f, args)).Ok? <==>
            f in sig && |args| == |sig[f].params| &&
            forall i :: 0 <= i < |args| ==> Infer(sig, fr, args[i]) == Ok(sig[f].params[i])
    ensures Infer(sig, fr, EApp(f, args)).Ok? ==> Infer(sig, fr, EApp(f, args)).value == sig[f].ret
    ensures f !in sig ==> Infer(sig, fr, EApp(f, args)) == Err(UndefinedFunction(f))
    ensures f in sig && |args| != |sig[f].params| ==>
              Infer(sig, fr, EApp(f, args)) == Err(ArityMismatch(f, |sig[f].params|, |args|))
  {
    if f in sig && |args| == |sig[f].params| {
      CheckArgsPass(sig, fr, f, args, sig[f].params, 0);
    }
  }

  /** `* / + -`: both operands of one type, int or double, and the result
      is that type. */
  lemma ArithRule(sig: Sig, fr: Frames<Type>, op: ArithOp, a: Exp, b: Exp, t: Type)
    ensures Infer(sig, fr, EArith(op, a, b)) == Ok(t) <==>
            Infer(sig, fr, a) == Ok(t) && Infer(sig, fr, b) == Ok(t) && IsNumeric(t)
  {
  }

  /** Comparisons, `&&` and `||`: both operands of one type among bool,
      int and double; the result is always bool. */
  lemma CompareRule(sig: Sig, fr: Frames<Type>, e: Exp)
    requires e.ECmp? || e.EAnd? || e.EOr?
    ensures Infer(sig, fr, e).Ok? <==>
            Infer(sig, fr, e.e1).Ok? && Infer(sig, fr, e.e2) == Infer(sig, fr, e.e1) &&
            IsComparable(Infer(sig, fr, e.e1).value)
    ensures Infer(sig, fr, e).Ok? ==> Infer(sig, fr, e).value == TBool
  {
  }

  /** `++` and `--`: an int or double operand, and the result is its type. */
  lemma IncrRule(sig: Sig, fr: Frames<Type>, op: IncrOp, a: Exp, t: Type)
    ensures Infer(sig, fr, EIncr(op, a)) == Ok(t) <==> Infer(sig, fr, a) == Ok(t) && IsNumeric(t)
  {
  }

  /** Assignment: both sides of the identical type, which is the result. */
  lemma AssignRule(sig: Sig, fr: Frames<Type>, a: Exp, b: Exp, t: Type)
    ensures Infer(sig, fr, EAss(a, b)) == Ok(t) <==> Infer(sig, fr, a) == Ok(t) && Infer(sig, fr, b) == Ok(t)
  {
  }

  // ---------------------------------------------------------------------
  // Statements

  /** An initialiser must have exactly the declared type, and the name
      must be new to the innermost frame; then only that frame gains it. */
  lemma InitRule(sig: Sig, fr: Frames<Type>, t: Type, x: string, e: Exp)
    requires |fr| > 0
    ensures CheckStm(sig, fr, SInit(t, x, e)).Ok? <==> Infer(sig, fr, e) == Ok(t) && !InCurrent(fr, x)
    ensures CheckStm(sig, fr, SInit(t, x, e)).Ok? ==> CheckStm(sig, fr, SInit(t, x, e)).value == Declare(fr, x, t)
  {
  }

  /** A returned expression must have exactly the type bound to "return". */
  lemma ReturnRule(sig: Sig, fr: Frames<Type>, e: Exp)
    requires |fr| > 0
    ensures CheckStm(sig, fr, SReturn(e)).Ok? <==>
            Lookup(fr, "return").Some? && Infer(sig, fr, e) == Ok(Lookup(fr, "return").value)
  {
  }

  /** A while or if condition must infer exactly bool, and each body is
      checked one frame deeper. */
  lemma ConditionRule(sig: Sig, fr: Frames<Type>, s: Stm)
    requires |fr| > 0 && (s.SWhile? || s.SIfElse?)
    ensures CheckStm(sig, fr, s).Ok? ==> Infer(sig, fr, s.cond) == Ok(TBool)
    ensures s.SWhile? ==> (CheckStm(sig, fr, s).Ok? <==>
              Infer(sig, fr, s.cond) == Ok(TBool) && CheckStm(sig, Push(fr), s.body).Ok?)
    ensures s.SIfElse? ==> (CheckStm(sig, fr, s).Ok? <==>
              Infer(sig, fr, s.cond) == Ok(TBool) &&
              CheckStm(sig, Push(fr), s.thn).Ok? && CheckStm(sig, Push(fr), s.els).Ok?)
  {
  }

  /** A one-name declaration is one `updateVar`. */
  lemma DeclareOne(sig: Sig, fr: Frames<Type>, t: Type, x: string)
    requires |fr| > 0
    ensures CheckStm(sig, fr, SDecls(t, [x])) == DeclareVar(fr, x, t)
  {
    assert [x][1..] == [];
    if !InCurrent(fr, x) {
      assert DeclareAll(Declare(fr, x, t), [], t) == Ok(Declare(fr, x, t));
    }
  }

  /** Declaring a name twice in one block fails. */
  lemma DuplicateInOneBlock(sig: Sig, fr: Frames<Type>, t: Type, t': Type, x: string)
    requires |fr| > 0
    ensures CheckStms(sig, fr, [SDecls(t, [x]), SDecls(t', [x])]).Err?
    ensures !InCurrent(fr, x) ==> CheckStms(sig, fr, [SDecls(t, [x]), SDecls(t', [x])]) == Err(DuplicateVar(x))
  {
    var ss := [SDecls(t, [x]), SDecls(t', [x])];
    assert ss[1..] == [SDecls(t', [x])] && ss[1..][1..] == [];
    DeclareOne(sig, fr, t, x);
    if !InCurrent(fr, x) {
      var fr1 := Declare(fr, x, t);
      DeclareOne(sig, fr1, t', x);
    }
  }

  /** Declaring the same name in a nested block succeeds (shadowing), and
      the block leaves the outer binding as it was. */
  lemma ShadowInNestedBlock(sig: Sig, fr: Frames<Type>, t: Type, t': Type, x: string)
    requires |fr| > 0 && !InCurrent(fr, x)
    ensures CheckStms(sig, fr, [SDecls(t, [x]), SBlock([SDecls(t', [x])])]) == Ok(Declare(fr, x, t))
  {
    var ss := [SDecls(t, [x]), SBlock([SDecls(t', [x])])];
    assert ss[1..] == [SBlock([SDecls(t', [x])])] && ss[1..][1..] == [];
    DeclareOne(sig, fr, t, x);
    var fr1 := Declare(fr, x, t);
    DeclareOne(sig, Push(fr1), t', x);
    var inner := [SDecls(t', [x])];
    assert inner[1..] == [];
    assert CheckStms(sig, Push(fr1), inner) == Ok(Declare(Push(fr1), x, t'));
    PopBack(fr1, Declare(Push(fr1), x, t'));
    assert CheckStm(sig, fr1, SBlock(inner)) == Ok(fr1);
    assert CheckStms(sig, fr1, ss[1..]) == Ok(fr1);
  }

  // ---------------------------------------------------------------------
  // Programs

  /** Registration fails with a duplicate-function error as soon as some
      definition reuses a name already in the table. */
  lemma {:induction false} RegisterRejectsTaken(sig: Sig, defs: seq<Def>, i: nat)
    requires i < |defs| && defs[i].id in sig
    ensures RegisterAll(sig, defs).Err? && RegisterAll(sig, defs).error.DuplicateFunction?
    decreases i
  {
    if defs[0].id !in sig {
      assert defs[1..][i - 1] == defs[i];
      RegisterRejectsTaken(sig[defs[0].id := SignatureOf(defs[0])], defs[1..], i - 1);
    }
  }

  /** Successful registration adds exactly the defined names, each with
      the signature its definition declares. */
  lemma {:induction false} RegisterAllOk(sig: Sig, defs: seq<Def>)
    requires RegisterAll(sig, defs).Ok?
    ensures forall id :: id in RegisterAll(sig, defs).value <==>
              id in sig || exists i :: 0 <= i < |defs| && defs[i].id == id
    ensures forall i :: 0 <= i < |defs| ==> RegisterAll(sig, defs).value[defs[i].id] == SignatureOf(defs[i])
    ensures forall id :: id in sig ==> RegisterAll(sig, defs).value[id] == sig[id]
    decreases |defs|
  {
    if defs != [] {
      var sig1 := sig[defs[0].id := SignatureOf(defs[0])];
      RegisterAllOk(sig1, defs[1..]);
      var res := RegisterAll(sig, defs).value;
      assert res == RegisterAll(sig1, defs[1..]).value;
      forall id ensures id in res <==> id in sig || exists i :: 0 <= i < |defs| && defs[i].id == id {
        if id in res && id !in sig && id != defs[0].id {
          var i :| 0 <= i < |defs[1..]| && defs[1..][i].id == id;
          assert defs[i + 1].id == id;
        }
        if exists i :: 0 <= i < |defs| && defs[i].id == id {
          var i :| 0 <= i < |defs| && defs[i].id == id;
          if i > 0 {
            assert defs[1..][i - 1].id == id;
          }
        }
      }
      forall i | 0 <= i < |defs| ensures res[defs[i].id] == SignatureOf(defs[i]) {
        if i > 0 {
          assert defs[1..][i - 1] == defs[i];
        }
      }
    }
  }

  /** A user function named like a builtin is rejected. */
  lemma BuiltinRedefinitionRejected(p: Program, i: nat)
    requires i < |p| && p[i].id in {"printInt", "readInt", "printDouble", "readDouble"}
    ensures CheckProgram(p).Fail? && CheckProgram(p).error.DuplicateFunction?
  {
    RegisterRejectsTaken(Builtins, p, i);
  }

  /** A program passes only with an entry point `int main()`. */
  lemma EntryPointRequired(p: Program)
    requires CheckProgram(p) == Pass
    ensures exists i :: 0 <= i < |p| && p[i].id == "main" && p[i].args == [] && p[i].t == TInt
  {
    RegisterAllOk(Builtins, p);
    var sig := RegisterAll(Builtins, p).value;
    var i :| 0 <= i < |p| && p[i].id == "main";
    assert sig["main"] == SignatureOf(p[i]);
  }

  /** Registration depends only on the names and signatures defined. */
  lemma {:induction false} RegisterAllSignaturesOnly(sig: Sig, p: seq<Def>, q: seq<Def>)
    requires |p| == |q|
    requires forall i :: 0 <= i < |p| ==> p[i].id == q[i].id && SignatureOf(p[i]) == SignatureOf(q[i])
    ensures RegisterAll(sig, p) == RegisterAll(sig, q)
    decreases |p|
  {
    if p != [] {
      RegisterAllSignaturesOnly(sig[p[0].id := SignatureOf(p[0])], p[1..], q[1..]);
    }
  }

  /** The entry point is checked before any body: a program whose `main`
      is missing or is not `int main()` fails the same way whatever its
      function bodies are. */
  lemma MainCheckedBeforeBodies(p: Program, q: Program)
    requires |p| == |q|
    requires forall i :: 0 <= i < |p| ==> p[i].id == q[i].id && SignatureOf(p[i]) == SignatureOf(q[i])
    requires RegisterAll(Builtins, p).Ok? && !ValidMain(RegisterAll(Builtins, p).value)
    ensures CheckProgram(p) == CheckProgram(q)
    ensures CheckProgram(p) == Fail(UndefinedFunction("main")) || CheckProgram(p) == Fail(InvalidMain)
  {
    RegisterAllSignaturesOnly(Builtins, p, q);
  }

  // ---------------------------------------------------------------------
  // Example programs

  /** A body made of one `return e` checks exactly when `e` has the
      declared return type. */
  lemma OneReturnBody(sig: Sig, t: Type, e: Exp)
    ensures var fr1 := [map["return" := t]];
            var te := Infer(sig, fr1, e);
            CheckDef(sig, [], DFun(t, "main", [], [SReturn(e)])) ==
              if te.Err? then Err(te.error)
              else if te.value != t then Err(ReturnMismatch(t, te.value))
              else Ok([])
  {
    var d := DFun(t, "main", [], [SReturn(e)]);
    var fr1 := [map["return" := t]];
    assert DeclareVar(Push(NoFrames), "return", t) == Ok(fr1) by {
      ReturnFrame(NoFrames, t);
      assert NoFrames + [map["return" := t]] == fr1;
    }
    assert Lookup(fr1, "return") == Some(t) by {
      InnermostUnique(fr1, "return", 0);
    }
    assert DeclareParams(fr1, []) == Ok(fr1);
    var te := Infer(sig, fr1, e);
    var rs := if te.Err? then Err(te.error)
              else if te.value != t then Err(ReturnMismatch(t, te.value))
              else Ok(fr1);
    assert CheckStm(sig, fr1, SReturn(e)) == rs;
    assert d.body[1..] == [];
    assert CheckStms(sig, fr1, d.body) == rs;
    assert Pop(fr1) == [];
  }

  /** `int main() { return 1.0; }` is rejected: double is not int. */
  lemma ReturnDoubleFromMain()
    ensures CheckProgram([DFun(TInt, "main", [], [SReturn(EDouble(1.0))])]) == Fail(ReturnMismatch(TInt, TDouble))
  {
    var d := DFun(TInt, "main", [], [SReturn(EDouble(1.0))]);
    var sig := MainRegistered(d);
    OneReturnBody(sig, TInt, EDouble(1.0));
    assert [d][1..] == [];
    assert CheckDefs(sig, [], [d]) == Err(ReturnMismatch(TInt, TDouble));
  }

  const NoFrames: Frames<Type> := []

  /** A body starts in one fresh frame, over whatever stack was there,
      holding only "return" with the declared return type. */
  lemma ReturnFrame(fr: Frames<Type>, t: Type)
    ensures DeclareVar(Push(fr), "return", t) == Ok(fr + [map["return" := t]])
  {
    var e: map<string, Type> := map[];
    assert Push(fr) == fr + [e];
    assert Declare(fr + [e], "return", t) == fr + [e["return" := t]];
  }

  /** The frame a body is checked in binds "return" to the declared
      return type and each parameter to its own type. The parameters are
      accepted exactly when none is named "return" and none repeats, and
      the frames outside are untouched. */
  lemma BodyFrame(fr: Frames<Type>, d: Def)
    ensures DeclareParams(fr + [map["return" := d.t]], d.args).Ok? <==>
              "return" !in ParamIds(d.args) && AllClear<Type>(map[], ParamIds(d.args))
    ensures var r := DeclareParams(fr + [map["return" := d.t]], d.args);
              r.Ok? ==>
                && |r.value| == |fr| + 1 && r.value[..|fr|] == fr
                && (forall y :: y in r.value[|fr|] <==> y == "return" || y in ParamIds(d.args))
                && Lookup(r.value, "return") == Some(d.t)
                && forall i :: 0 <= i < |d.args| ==> Lookup(r.value, d.args[i].id) == Some(d.args[i].t)
  {
    var m: map<string, Type> := map["return" := d.t];
    var rf := fr + [m];
    var ids := ParamIds(d.args);
    assert rf[..|fr|] == fr && rf[|fr|] == m;
    ClearAfterOne("return", d.t, ids);
    var r := DeclareParams(rf, d.args);
    if r.Ok? {
      assert r.value[..|fr|] == rf[..|fr|];
      InnermostUnique(rf, "return", |fr|);
    }
  }

  /** A program of one definition `int main()` registers it beside the
      builtins and passes the entry-point check. */
  lemma MainRegistered(d: Def) returns (sig: Sig)
    requires d.id == "main" && d.t == TInt && d.args == []
    ensures RegisterAll(Builtins, [d]) == Ok(sig) && ValidMain(sig)
    ensures sig == Builtins["main" := FunType([], TInt)]
  {
    sig := Builtins["main" := FunType([], TInt)];
    assert [d][1..] == [];
    assert SignatureOf(d) == FunType([], TInt);
  }

  /** `int main() { return 0; }` passes. */
  lemma ReturnZeroChecks()
    ensures CheckProgram([DFun(TInt, "main", [], [SReturn(EInt(0))])]) == Pass
  {
    var d := DFun(TInt, "main", [], [SReturn(EInt(0))]);
    var sig := MainRegistered(d);
    OneReturnBody(sig, TInt, EInt(0));
    assert [d][1..] == [];
    assert CheckDefs(sig, [], [d]) == Ok([]);
  }
}
