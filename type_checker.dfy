/** The static type checker of Lab2/TypeChecker.java. Expression
    inference (`ExpInferer`) only reads the environment and is a pure
    function of the signature table and the frames. Statement checking
    (`StmChecker`) and the whole-program pass (`typecheck`) change the
    environment step by step: they are methods on `TypeScopes.Env`,
    proved equal to the functions `CheckStm`, `CheckStms` and
    `CheckProgram`, about which the typing rules are proved. */
module TypeChecker {
  import opened Wrappers
  import opened Scopes
  import opened Types
  import opened Syntax
  import TypeScopes

  type Sig = map<string, FunType>

  // ---------------------------------------------------------------------
  // Expressions (ExpInferer)

  /** `sameType`: both sides inferred left to right, and they must agree. */
  function SameType(r1: Result<Type, TypeError>, r2: Result<Type, TypeError>): (r: Result<Type, TypeError>)
    ensures r.Ok? <==> r1.Ok? && r2.Ok? && r1.value == r2.value
    ensures r.Ok? ==> r.value == r1.value
  {
    if r1.Err? then r1
    else if r2.Err? then r2
    else if r1.value != r2.value then Err(OperandMismatch(r1.value, r2.value))
    else r1
  }

  predicate IsNumeric(t: Type) {
    t == TInt || t == TDouble
  }

  predicate IsComparable(t: Type) {
    t == TBool || t == TInt || t == TDouble
  }

  /** Infers the type of `e` in the frames `fr`, or the error the
      checker throws. */
  function Infer(sig: Sig, fr: Frames<Type>, e: Exp): (r: Result<Type, TypeError>)
    decreases SizeE(e), 1
    ensures e.EId? ==> (r.Ok? <==> Lookup(fr, e.id).Some?)
    ensures e.EApp? && r.Ok? ==>
              e.id in sig && |e.args| == |sig[e.id].params| && r.value == sig[e.id].ret
    ensures (e.EIncr? || e.EArith?) && r.Ok? ==> IsNumeric(r.value)
    ensures (e.ECmp? || e.EAnd? || e.EOr?) && r.Ok? ==> r.value == TBool
  {
    match e
    case ETrue => Ok(TBool)
    case EFalse => Ok(TBool)
    case EInt(_) => Ok(TInt)
    case EDouble(_) => Ok(TDouble)
    case EId(x) =>
      if Lookup(fr, x).Some? then Ok(Lookup(fr, x).value) else Err(UndeclaredVar(x))
    case EApp(f, args) =>
      if f !in sig then Err(UndefinedFunction(f))
      else if |sig[f].params| != |args| then Err(ArityMismatch(f, |sig[f].params|, |args|))
      else
        var ok := CheckArgs(sig, fr, f, args, sig[f].params, 0);
        if ok.Fail? then Err(ok.error) else Ok(sig[f].ret)
    case EIncr(_, a) =>
      var t := Infer(sig, fr, a);
      if t.Err? then t
      else if IsNumeric(t.value) then t
      else Err(NotNumeric(t.value))
    case EArith(_, a, b) =>
      var t := SameType(Infer(sig, fr, a), Infer(sig, fr, b));
      if t.Err? then t
      else if IsNumeric(t.value) then t
      else Err(NotArithmetic(t.value))
    case EAss(a, b) => SameType(Infer(sig, fr, a), Infer(sig, fr, b))
    case ECmp(_, a, b) => BoolType(Infer(sig, fr, a), Infer(sig, fr, b))
    case EAnd(a, b) => BoolType(Infer(sig, fr, a), Infer(sig, fr, b))
    case EOr(a, b) => BoolType(Infer(sig, fr, a), Infer(sig, fr, b))
  }

  /** `boolType`: identical comparable operand types, result bool. */
  function BoolType(r1: Result<Type, TypeError>, r2: Result<Type, TypeError>): Result<Type, TypeError> {
    var t := SameType(r1, r2);
    if t.Err? then t
    else if IsComparable(t.value) then Ok(TBool)
    else Err(NotComparable(t.value))
  }

  /** The argument loop of a call: each argument, left to right, must
      infer exactly the parameter type at its position. */
  function CheckArgs(sig: Sig, fr: Frames<Type>, f: string, args: seq<Exp>, params: seq<Type>, pos: nat): Outcome<TypeError>
    requires |args| == |params|
    decreases SizeEs(args), 0
  {
    if args == [] then Pass
    else
      var t := Infer(sig, fr, args[0]);
      if t.Err? then Fail(t.error)
      else if params[0] != t.value then Fail(ArgumentMismatch(f, pos, params[0], t.value))
      else CheckArgs(sig, fr, f, args[1..], params[1..], pos + 1)
  }

  // ---------------------------------------------------------------------
  // Statements (StmChecker)

  /** `updateVar` on the checker's environment, as a function: the name
      becomes visible with type `t` and nothing else seen changes; a name
      already in the innermost frame is a duplicate, and with no frame at
      all `getLast` throws. */
  function DeclareVar(fr: Frames<Type>, x: string, t: Type): (r: Result<Frames<Type>, TypeError>)
    ensures |fr| == 0 ==> r == Err(NoFrame)
    ensures |fr| > 0 ==> (r.Err? <==> InCurrent(fr, x))
    ensures |fr| > 0 && r.Err? ==> r.error == DuplicateVar(x)
    ensures r.Ok? ==> r.value == Declare(fr, x, t)
    ensures r.Ok? ==> forall y :: Lookup(r.value, y) == if y == x then Some(t) else Lookup(fr, y)
  {
    if |fr| == 0 then Err(NoFrame)
    else if InCurrent(fr, x) then Err(DuplicateVar(x))
    else
      assert forall y :: Lookup(Declare(fr, x, t), y) == if y == x then Some(t) else Lookup(fr, y) by {
        forall y { LookupDeclare(fr, x, t, y); }
      }
      Ok(Declare(fr, x, t))
  }

  /** `int x, y, z;`: each name in turn, failing at the first clash. It
      succeeds exactly when no name is already in the innermost frame and
      none repeats; then every listed name has type `t`, only the
      innermost frame gained names, and every other name is seen as
      before. */
  function DeclareAll(fr: Frames<Type>, ids: seq<string>, t: Type): (r: Result<Frames<Type>, TypeError>)
    requires |fr| > 0
    ensures r.Ok? <==> AllClear(fr[|fr| - 1], ids)
    ensures r.Err? ==> r.error.DuplicateVar? && r.error.id in ids
    ensures r.Ok? ==> |r.value| == |fr| && r.value[..|fr| - 1] == fr[..|fr| - 1]
    ensures r.Ok? ==> forall y :: y in r.value[|fr| - 1] <==> y in fr[|fr| - 1] || y in ids
    ensures r.Ok? ==> forall i :: 0 <= i < |ids| ==> Lookup(r.value, ids[i]) == Some(t)
    ensures r.Ok? ==> forall y :: y !in ids ==> Lookup(r.value, y) == Lookup(fr, y)
    decreases |ids|
  {
    if ids == [] then Ok(fr)
    else
      var fr1 := DeclareVar(fr, ids[0], t);
      ClearStep(fr[|fr| - 1], ids, t);
      if fr1.Err? then fr1
      else
        var r1 := DeclareAll(fr1.value, ids[1..], t);
        if r1.Err? then r1
        else
          DeclareEachStep(fr, ids, seq(|ids|, _ => t), r1.value);
          r1
  }

  /** Checks one statement in the frames `fr`. On success the result is
      the new frame stack: same depth, only the innermost frame may have
      gained bindings, and every statement other than a declaration
      leaves the stack exactly as it was (each nested body gets its own
      frame, pushed and popped around it). */
  function CheckStm(sig: Sig, fr: Frames<Type>, s: Stm): (r: Result<Frames<Type>, TypeError>)
    requires |fr| > 0
    decreases SizeS(s), 1
    ensures r.Ok? ==> |r.value| == |fr| && r.value[..|fr| - 1] == fr[..|fr| - 1]
    ensures r.Ok? && !s.SDecls? && !s.SInit? ==> r.value == fr
  {
    match s
    case SExp(e) =>
      var t := Infer(sig, fr, e);
      if t.Err? then Err(t.error) else Ok(fr)
    case SDecls(t, ids) => DeclareAll(fr, ids, t)
    case SInit(t, x, e) =>
      var t' := Infer(sig, fr, e);
      if t'.Err? then Err(t'.error)
      else if t != t'.value then Err(InitMismatch(x, t, t'.value))
      else DeclareVar(fr, x, t)
    case SReturn(e) =>
      var rt := Lookup(fr, "return");
      if rt.None? then Err(UndeclaredVar("return"))
      else
        var t := Infer(sig, fr, e);
        if t.Err? then Err(t.error)
        else if rt.value != t.value then Err(ReturnMismatch(rt.value, t.value))
        else Ok(fr)
    case SWhile(c, body) =>
      var t := Infer(sig, fr, c);
      if t.Err? then Err(t.error)
      else if t.value != TBool then Err(ConditionNotBool(t.value))
      else InBlock(sig, fr, body)
    case SBlock(ss) =>
      var fr1 := CheckStms(sig, Push(fr), ss);
      if fr1.Err? then fr1
      else PopBack(fr, fr1.value); Ok(Pop(fr1.value))
    case SIfElse(c, s1, s2) =>
      var t := Infer(sig, fr, c);
      if t.Err? then Err(t.error)
      else if t.value != TBool then Err(ConditionNotBool(t.value))
      else
        var fr1 := InBlock(sig, fr, s1);
        if fr1.Err? then fr1 else InBlock(sig, fr1.value, s2)
  }

  /** `newBlock`, check `s`, `exitBlock`. */
  function InBlock(sig: Sig, fr: Frames<Type>, s: Stm): (r: Result<Frames<Type>, TypeError>)
    requires |fr| > 0
    decreases SizeS(s), 2
    ensures r.Ok? ==> r.value == fr
  {
    var fr1 := CheckStm(sig, Push(fr), s);
    if fr1.Err? then fr1
    else PopBack(fr, fr1.value); Ok(Pop(fr1.value))
  }

  /** Popping the frame pushed over `fr` gives back `fr` when nothing
      outside that frame changed. */
  lemma PopBack<T>(fr: Frames<T>, fr1: Frames<T>)
    requires |fr1| == |Push(fr)| && fr1[..|fr|] == Push(fr)[..|fr|]
    ensures Pop(fr1) == fr
  {
    assert Push(fr)[..|fr|] == fr;
  }

  /** Checks a statement sequence in order, stopping at the first error. */
  function CheckStms(sig: Sig, fr: Frames<Type>, ss: seq<Stm>): (r: Result<Frames<Type>, TypeError>)
    requires |fr| > 0
    decreases SizeSs(ss), 0
    ensures r.Ok? ==> |r.value| == |fr| && r.value[..|fr| - 1] == fr[..|fr| - 1]
  {
    if ss == [] then Ok(fr)
    else
      var fr1 := CheckStm(sig, fr, ss[0]);
      if fr1.Err? then fr1 else CheckStms(sig, fr1.value, ss[1..])
  }

  // ---------------------------------------------------------------------
  // Programs (typecheck)

  /** The four builtins, registered before any user function. */
  const Builtins: Sig := map[
    "readInt" := FunType([], TInt),
    "printInt" := FunType([TInt], TVoid),
    "readDouble" := FunType([], TDouble),
    "printDouble" := FunType([TDouble], TVoid)]

  /** Registers each definition's signature in order; a name already in
      the table is an error. */
  function RegisterAll(sig: Sig, defs: seq<Def>): Result<Sig, TypeError>
    decreases |defs|
  {
    if defs == [] then Ok(sig)
    else if defs[0].id in sig then Err(DuplicateFunction(defs[0].id))
    else RegisterAll(sig[defs[0].id := SignatureOf(defs[0])], defs[1..])
  }

  /** The parameters of a function, declared one after another. This
      succeeds exactly when no parameter name is already in the innermost
      frame and none repeats; then each parameter has its declared type,
      only the innermost frame gained names, and every other name is seen
      as before. */
  function DeclareParams(fr: Frames<Type>, args: seq<Arg>): (r: Result<Frames<Type>, TypeError>)
    requires |fr| > 0
    ensures r.Ok? <==> AllClear(fr[|fr| - 1], ParamIds(args))
    ensures r.Err? ==> r.error.DuplicateVar? && r.error.id in ParamIds(args)
    ensures r.Ok? ==> |r.value| == |fr| && r.value[..|fr| - 1] == fr[..|fr| - 1]
    ensures r.Ok? ==> forall y :: y in r.value[|fr| - 1] <==> y in fr[|fr| - 1] || y in ParamIds(args)
    ensures r.Ok? ==> forall i :: 0 <= i < |args| ==> Lookup(r.value, args[i].id) == Some(args[i].t)
    ensures r.Ok? ==> forall y :: y !in ParamIds(args) ==> Lookup(r.value, y) == Lookup(fr, y)
    decreases |args|
  {
    if args == [] then Ok(fr)
    else
      var fr1 := DeclareVar(fr, args[0].id, args[0].t);
      var ids := ParamIds(args);
      assert ids[1..] == ParamIds(args[1..]);
      assert ParamTypes(args)[1..] == ParamTypes(args[1..]);
      ClearStep(fr[|fr| - 1], ids, args[0].t);
      if fr1.Err? then fr1
      else
        var r1 := DeclareParams(fr1.value, args[1..]);
        if r1.Err? then r1
        else
          DeclareEachStep(fr, ids, ParamTypes(args), r1.value);
          r1
  }

  /** One function body, checked in a single fresh frame that holds the
      pseudo-variable "return" and the parameters. */
  function CheckDef(sig: Sig, fr: Frames<Type>, d: Def): (r: Result<Frames<Type>, TypeError>)
    ensures r.Ok? ==> r.value == fr
  {
    var fr1 := DeclareVar(Push(fr), "return", d.t);
    if fr1.Err? then fr1
    else
      var fr2 := DeclareParams(fr1.value, d.args);
      if fr2.Err? then fr2
      else
        var fr3 := CheckStms(sig, fr2.value, d.body);
        if fr3.Err? then fr3
        else PopBack(fr, fr3.value); Ok(Pop(fr3.value))
  }

  function CheckDefs(sig: Sig, fr: Frames<Type>, defs: seq<Def>): (r: Result<Frames<Type>, TypeError>)
    ensures r.Ok? ==> r.value == fr
    decreases |defs|
  {
    if defs == [] then Ok(fr)
    else
      var fr1 := CheckDef(sig, fr, defs[0]);
      if fr1.Err? then fr1 else CheckDefs(sig, fr1.value, defs[1..])
  }

  /** True when `sig` has an entry point `int main()`. */
  predicate ValidMain(sig: Sig) {
    "main" in sig && sig["main"].ret == TInt && sig["main"].params == []
  }

  /** The whole pass: builtins, user signatures, the entry point, and only
      then the bodies. */
  function CheckProgram(p: Program): Outcome<TypeError> {
    var sig := RegisterAll(Builtins, p);
    if sig.Err? then Fail(sig.error)
    else if "main" !in sig.value then Fail(UndefinedFunction("main"))
    else if !ValidMain(sig.value) then Fail(InvalidMain)
    else
      var fr := CheckDefs(sig.value, [], p);
      if fr.Err? then Fail(fr.error) else Pass
  }

  // ---------------------------------------------------------------------
  // The imperative pass on the environment object

  /** A method's result and new frames agree with a specification result. */
  ghost predicate Agrees(r: Outcome<TypeError>, spec: Result<Frames<Type>, TypeError>, fr: Frames<Type>) {
    match spec
    case Ok(f) => r == Pass && fr == f
    case Err(err) => r == Fail(err)
  }

  /** `typecheckStm`: the statement visitor, changing `env` in place. */
  method TypecheckStm(env: TypeScopes.Env, s: Stm) returns (r: Outcome<TypeError>)
    requires |env.contexts| > 0
    modifies env
    decreases SizeS(s), 1
    ensures env.signature == old(env.signature)
    ensures Agrees(r, CheckStm(env.signature, old(env.contexts), s), env.contexts)
  {
    ghost var fr := env.contexts;
    match s
    case SExp(e) =>
      var t := Infer(env.signature, env.contexts, e);
      r := if t.Err? then Fail(t.error) else Pass;
    case SDecls(t, ids) =>
      for i := 0 to |ids|
        invariant env.signature == old(env.signature) && |env.contexts| == |fr|
        invariant DeclareAll(fr, ids, t) == DeclareAll(env.contexts, ids[i..], t)
      {
        assert ids[i..][1..] == ids[i + 1..];
        r := env.UpdateVar(ids[i], t);
        if r.Fail? {
          return;
        }
      }
      r := Pass;
    case SInit(t, x, e) =>
      var t' := Infer(env.signature, env.contexts, e);
      if t'.Err? {
        return Fail(t'.error);
      }
      if t != t'.value {
        return Fail(InitMismatch(x, t, t'.value));
      }
      r := env.UpdateVar(x, t);
    case SReturn(e) =>
      var rt := env.LookupVar("return");
      if rt.Err? {
        return Fail(rt.error);
      }
      var t := Infer(env.signature, env.contexts, e);
      if t.Err? {
        return Fail(t.error);
      }
      r := if rt.value != t.value then Fail(ReturnMismatch(rt.value, t.value)) else Pass;
    case SWhile(c, body) =>
      var t := Infer(env.signature, env.contexts, c);
      if t.Err? {
        return Fail(t.error);
      }
      if t.value != TBool {
        return Fail(ConditionNotBool(t.value));
      }
      r := TypecheckInBlock(env, body);
    case SBlock(ss) =>
      env.NewBlock();
      r := TypecheckStms(env, ss);
      if r.Fail? {
        return;
      }
      PopBack(fr, env.contexts);
      env.ExitBlock();
    case SIfElse(c, s1, s2) =>
      var t := Infer(env.signature, env.contexts, c);
      if t.Err? {
        return Fail(t.error);
      }
      if t.value != TBool {
        return Fail(ConditionNotBool(t.value));
      }
      r := TypecheckInBlock(env, s1);
      if r.Fail? {
        return;
      }
      r := TypecheckInBlock(env, s2);
  }

  /** `env.newBlock(); s.accept(this, env); env.exitBlock();` */
  method TypecheckInBlock(env: TypeScopes.Env, s: Stm) returns (r: Outcome<TypeError>)
    requires |env.contexts| > 0
    modifies env
    decreases SizeS(s), 2
    ensures env.signature == old(env.signature)
    ensures Agrees(r, InBlock(env.signature, old(env.contexts), s), env.contexts)
  {
    ghost var fr := env.contexts;
    env.NewBlock();
    r := TypecheckStm(env, s);
    if r.Fail? {
      return;
    }
    PopBack(fr, env.contexts);
    env.ExitBlock();
  }

  /** `typecheckStms`: each statement in order. */
  method TypecheckStms(env: TypeScopes.Env, ss: seq<Stm>) returns (r: Outcome<TypeError>)
    requires |env.contexts| > 0
    modifies env
    decreases SizeSs(ss), 0
    ensures env.signature == old(env.signature)
    ensures Agrees(r, CheckStms(env.signature, old(env.contexts), ss), env.contexts)
  {
    ghost var fr := env.contexts;
    var i := 0;
    while i < |ss|
      invariant 0 <= i <= |ss|
      invariant env.signature == old(env.signature) && |env.contexts| == |fr|
      invariant CheckStms(env.signature, fr, ss) == CheckStms(env.signature, env.contexts, ss[i..])
      decreases |ss| - i
    {
      assert ss[i..][0] == ss[i] && ss[i..][1..] == ss[i + 1..];
      SizeSsSuffix(ss, i);
      r := TypecheckStm(env, ss[i]);
      if r.Fail? {
        return;
      }
      i := i + 1;
    }
    r := Pass;
  }

  /** A statement inside a sequence is smaller than the sequence. */
  lemma {:induction false} SizeSsSuffix(ss: seq<Stm>, i: nat)
    requires i < |ss|
    ensures SizeS(ss[i]) < SizeSs(ss)
    decreases i
  {
    if i > 0 {
      SizeSsSuffix(ss[1..], i - 1);
      assert ss[1..][i - 1] == ss[i];
    }
  }

  /** `typecheck`: builtins and user signatures first, then the entry
      point, then every body in its own frame. */
  method Typecheck(p: Program) returns (r: Outcome<TypeError>)
    ensures r == CheckProgram(p)
  {
    var env := new TypeScopes.Env.Empty();
    var ok := env.UpdateFun("readInt", FunType([], TInt));
    ok := env.UpdateFun("printInt", FunType([TInt], TVoid));
    ok := env.UpdateFun("readDouble", FunType([], TDouble));
    ok := env.UpdateFun("printDouble", FunType([TDouble], TVoid));
    assert env.signature == Builtins;

    ok := RegisterDefs(env, p);
    if ok.Fail? {
      return ok;
    }
    ghost var sig := env.signature;

    var main := env.LookupFun("main");
    if main.Err? {
      return Fail(main.error);
    }
    if !(main.value.ret == TInt) || main.value.params != [] {
      return Fail(InvalidMain);
    }

    for i := 0 to |p|
      invariant env.contexts == [] && env.signature == sig
      invariant CheckDefs(sig, [], p) == CheckDefs(sig, [], p[i..])
    {
      var d := p[i];
      assert p[i..][0] == d && p[i..][1..] == p[i + 1..];
      ok := TypecheckDef(env, d);
      if ok.Fail? {
        return ok;
      }
    }
    r := Pass;
  }

  /** The loop of `typecheck` registering every definition's signature,
      stopping at the first name already taken. */
  method RegisterDefs(env: TypeScopes.Env, p: Program) returns (r: Outcome<TypeError>)
    modifies env
    ensures env.contexts == old(env.contexts)
    ensures match RegisterAll(old(env.signature), p)
            case Ok(sig) => r == Pass && env.signature == sig
            case Err(err) => r == Fail(err)
  {
    ghost var sig0 := env.signature;
    for i := 0 to |p|
      invariant env.contexts == old(env.contexts)
      invariant RegisterAll(sig0, p) == RegisterAll(env.signature, p[i..])
    {
      var d := p[i];
      var funArgs := ArgTypes(d.args);
      assert FunType(funArgs, d.t) == SignatureOf(d);
      assert p[i..][1..] == p[i + 1..];
      r := env.UpdateFun(d.id, FunType(funArgs, d.t));
      if r.Fail? {
        return;
      }
    }
    r := Pass;
  }

  /** The parameter types of a definition, collected in order. */
  method ArgTypes(args: seq<Arg>) returns (ts: seq<Type>)
    ensures |ts| == |args|
    ensures forall i :: 0 <= i < |args| ==> ts[i] == args[i].t
  {
    ts := [];
    for j := 0 to |args|
      invariant |ts| == j
      invariant forall i :: 0 <= i < j ==> ts[i] == args[i].t
    {
      ts := ts + [args[j].t];
    }
  }

  /** One body of `typecheck`: a fresh frame holding "return" and the
      parameters, the statements, and the frame popped again. */
  method TypecheckDef(env: TypeScopes.Env, d: Def) returns (r: Outcome<TypeError>)
    requires env.contexts == []
    modifies env
    ensures env.signature == old(env.signature)
    ensures Agrees(r, CheckDef(env.signature, [], d), env.contexts)
  {
    ghost var sig := env.signature;
    env.NewBlock();
    r := env.UpdateVar("return", d.t);
    if r.Fail? {
      return;
    }
    ghost var fr1 := env.contexts;
    for j := 0 to |d.args|
      invariant env.signature == sig && |env.contexts| == 1
      invariant DeclareParams(fr1, d.args) == DeclareParams(env.contexts, d.args[j..])
    {
      assert d.args[j..][1..] == d.args[j + 1..];
      r := env.UpdateVar(d.args[j].id, d.args[j].t);
      if r.Fail? {
        return;
      }
    }
    r := TypecheckStms(env, d.body);
    if r.Fail? {
      return;
    }
    PopBack([], env.contexts);
    env.ExitBlock();
  }
}
