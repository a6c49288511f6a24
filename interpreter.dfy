/** The interpreter of Lab2/Interpreter.java as the code runs it: an `Env`
    object whose frames are updated in place, and visitor methods that
    walk the tree, read the input and append to the output. Every method
    is proved to compute exactly what the functions of module `Semantics`
    define, so the properties proved there hold of these methods. */
module Interpreter {
  import opened Wrappers
  import opened Scopes
  import opened Syntax
  import opened Semantics

  /** The private `Env` of the interpreter: the function table copied
      from the base environment and a stack of value frames. */
  class Env {
    var signatures: Functions
    var contexts: VFrames

    /** `Env.empty()`: a copy of the base environment's table (the
        singleton `baseEnv`, passed in here) and one empty frame. */
    constructor Empty(base: Functions)
      ensures signatures == base && contexts == [map[]]
    {
      signatures := base;
      contexts := [map[]];
    }

    /** `HashMap.get`: the definition, or `null`. */
    method LookupFunction(id: string) returns (d: Option<Def>)
      ensures d.Some? <==> id in signatures
      ensures d.Some? ==> d.value == signatures[id]
    {
      if id in signatures {
        d := Some(signatures[id]);
      } else {
        d := None;
      }
    }

    /** Scans from the innermost frame outwards; the first frame holding
        `id` gives its value, which may itself be `null`. */
    method LookupVar(id: string) returns (v: Option<Value>)
      ensures v == LookupVal(contexts, id)
    {
      var i := |contexts|;
      while i > 0
        invariant 0 <= i <= |contexts|
        invariant forall j :: i <= j < |contexts| ==> id !in contexts[j]
      {
        if id in contexts[i - 1] {
          InnermostUnique(contexts, id, i - 1);
          return contexts[i - 1][id];
        }
        i := i - 1;
      }
      return None;
    }

    /** Overwrites `id` in the innermost frame holding it; when no frame
        holds it nothing happens. */
    method UpdateVar(id: string, v: Option<Value>)
      modifies this`contexts
      ensures contexts == Rebind(old(contexts), id, v)
    {
      var i := |contexts|;
      while i > 0
        invariant 0 <= i <= |contexts|
        invariant forall j :: i <= j < |contexts| ==> id !in contexts[j]
      {
        if id in contexts[i - 1] {
          InnermostUnique(contexts, id, i - 1);
          contexts := contexts[i - 1 := contexts[i - 1][id := v]];
          return;
        }
        i := i - 1;
      }
    }

    /** Binds `id` in the innermost frame, replacing any binding there. */
    method DeclareVar(id: string, v: Option<Value>)
      requires |contexts| > 0
      modifies this`contexts
      ensures contexts == Declare(old(contexts), id, v)
    {
      contexts := contexts[|contexts| - 1 := contexts[|contexts| - 1][id := v]];
    }

    /** Adds or replaces a definition. */
    method DeclareFunction(id: string, f: Def)
      modifies this`signatures
      ensures signatures == old(signatures)[id := f]
    {
      signatures := signatures[id := f];
    }

    method NewBlock()
      modifies this`contexts
      ensures contexts == Push(old(contexts))
    {
      contexts := contexts + [map[]];
    }

    /** `pollLast`: drops the innermost frame, if there is one. */
    method ExitBlock()
      modifies this`contexts
      ensures contexts == Pop(old(contexts))
    {
      if |contexts| > 0 {
        contexts := contexts[..|contexts| - 1];
      }
    }
  }

  /** A method's outcome matches the pure semantics: the same value, the
      same frames and the same I/O when the semantics completes, and the
      same exception when it crashes. */
  predicate Agrees<T(==)>(r: Result<T, RuntimeError>, s: Res<T>, fr: VFrames, io: Io) {
    match s
    case Done(v, f, i) => r == Ok(v) && fr == f && io == i
    case Crash(err) => r == Err(err)
  }

  /** The same for a call, which leaves the caller's frames alone. */
  predicate CallAgrees(r: Result<Option<Value>, RuntimeError>, s: Result<(Option<Value>, Io), RuntimeError>, io: Io) {
    match s
    case Ok(vi) => r == Ok(vi.0) && io == vi.1
    case Err(err) => r == Err(err)
  }

  /** Values already evaluated, in front of the ones still to come. */
  function Prepend(vals: seq<Option<Value>>, s: Res<seq<Option<Value>>>): Res<seq<Option<Value>>> {
    match s
    case Done(vs, f, i) => Done(vals + vs, f, i)
    case Crash(err) => Crash(err)
  }

  lemma PrependNil(s: Res<seq<Option<Value>>>)
    ensures Prepend([], s) == s
  {
    if s.Done? {
      assert [] + s.val == s.val;
    }
  }

  /** One more value moved from the results still to come to the ones
      already evaluated. */
  lemma PrependCons(vals: seq<Option<Value>>, v: Option<Value>, s: Res<seq<Option<Value>>>)
    ensures Prepend(vals, if s.Crash? then s else Done([v] + s.val, s.frames, s.io)) == Prepend(vals + [v], s)
  {
    if s.Done? {
      assert vals + ([v] + s.val) == (vals + [v]) + s.val;
    }
  }

  /** The visitors of the interpreter. `functions` is the table of the
      base environment; `input` holds the lines standard input has left
      and `output` the lines printed so far. */
  class Interpreter {
    const functions: Functions
    var input: seq<Option<int32>>
    var output: seq<Option<int32>>

    constructor (functions: Functions, input: seq<Option<int32>>)
      ensures this.functions == functions && this.input == input && output == []
    {
      this.functions := functions;
      this.input := input;
      output := [];
    }

    function IoState(): Io
      reads this
    {
      Io(input, output)
    }

    /** `ExpEval`: one case per expression form. */
    method EvalExp(fuel: nat, e: Exp, env: Env) returns (r: Result<Option<Value>, RuntimeError>)
      requires env.signatures == functions
      modifies this`input, this`output, env`contexts
      decreases fuel, SizeE(e), 2
      ensures Agrees(r, Semantics.EvalExp(functions, fuel, e, old(env.contexts), old(IoState())), env.contexts, IoState())
    {
      match e
      case ETrue => r := Ok(Some(BoolV(true)));
      case EFalse => r := Ok(Some(BoolV(false)));
      case EInt(n) => r := Ok(Some(IntV(n)));
      case EDouble(_) => r := Err(DoubleUnsupported);
      case EId(x) =>
        var v := env.LookupVar(x);
        if v.None? {
          r := Err(UninitializedRead(x));
        } else {
          r := Ok(v);
        }
      case EApp(_, _) => r := EvaluateFunction(fuel, e, env);
      case EIncr(_, _) => r := EvalIncr(fuel, e, env);
      case EArith(_, _, _) => r := EvalArith(fuel, e, env);
      case EAss(_, _) => r := EvalAss(fuel, e, env);
      case ECmp(_, _, _) => r := EvalCmp(fuel, e, env);
      case EAnd(a, b) => r := EvalLogic(fuel, true, a, b, env);
      case EOr(a, b) => r := EvalLogic(fuel, false, a, b, env);
    }

    /** `x++`, `x--`, `++x`, `--x`: only an int variable is stepped; the
        postfix forms return the old value, the prefix forms the new one
        (or `null` when the variable does not hold an int). */
    method EvalIncr(fuel: nat, e: Exp, env: Env) returns (r: Result<Option<Value>, RuntimeError>)
      requires e.EIncr?
      modifies env`contexts
      ensures Agrees(r, Semantics.EvalExp(functions, fuel, e, old(env.contexts), IoState()), env.contexts, IoState())
    {
      if !e.e.EId? {
        return Err(BadCast);
      }
      var x := e.e.id;
      var before := env.LookupVar(x);
      var post := e.incr == PostIncr || e.incr == PostDecr;
      if before.Some? && before.value.IntV? {
        var after := IntV(Step(e.incr, before.value.n));
        env.UpdateVar(x, Some(after));
        r := if post then Ok(before) else Ok(Some(after));
      } else {
        r := if post then Ok(before) else Ok(None);
      }
    }

    /** `*`, `/`, `+`, `-`: both operands, left to right, then the
        operation on two ints. */
    method EvalArith(fuel: nat, e: Exp, env: Env) returns (r: Result<Option<Value>, RuntimeError>)
      requires e.EArith? && env.signatures == functions
      modifies this`input, this`output, env`contexts
      decreases fuel, SizeE(e), 1
      ensures Agrees(r, Semantics.EvalExp(functions, fuel, e, old(env.contexts), old(IoState())), env.contexts, IoState())
    {
      var v1 := EvalExp(fuel, e.e1, env);
      if v1.Err? {
        return v1;
      }
      var v2 := EvalExp(fuel, e.e2, env);
      if v2.Err? {
        return v2;
      }
      var v := ArithVal(e.aop, v1.value, v2.value);
      r := if v.Err? then Err(v.error) else Ok(Some(v.value));
    }

    /** `x = e`: the left side must be a variable; the value of `e` is
        stored and is the value of the assignment. */
    method EvalAss(fuel: nat, e: Exp, env: Env) returns (r: Result<Option<Value>, RuntimeError>)
      requires e.EAss? && env.signatures == functions
      modifies this`input, this`output, env`contexts
      decreases fuel, SizeE(e), 1
      ensures Agrees(r, Semantics.EvalExp(functions, fuel, e, old(env.contexts), old(IoState())), env.contexts, IoState())
    {
      if !e.e1.EId? {
        return Err(BadCast);
      }
      var v2 := EvalExp(fuel, e.e2, env);
      if v2.Err? {
        return v2;
      }
      env.UpdateVar(e.e1.id, v2.value);
      r := v2;
    }

    /** The six comparisons: both operands, left to right, then the test. */
    method EvalCmp(fuel: nat, e: Exp, env: Env) returns (r: Result<Option<Value>, RuntimeError>)
      requires e.ECmp? && env.signatures == functions
      modifies this`input, this`output, env`contexts
      decreases fuel, SizeE(e), 1
      ensures Agrees(r, Semantics.EvalExp(functions, fuel, e, old(env.contexts), old(IoState())), env.contexts, IoState())
    {
      var v1 := EvalExp(fuel, e.e1, env);
      if v1.Err? {
        return v1;
      }
      var v2 := EvalExp(fuel, e.e2, env);
      if v2.Err? {
        return v2;
      }
      var v := CmpVal(e.cop, v1.value, v2.value);
      r := if v.Err? then Err(v.error) else Ok(Some(v.value));
    }

    /** `a && b` (isAnd) and `a || b`: `b` runs only when `a` does not
        decide the result. */
    method EvalLogic(fuel: nat, isAnd: bool, a: Exp, b: Exp, env: Env) returns (r: Result<Option<Value>, RuntimeError>)
      requires env.signatures == functions
      modifies this`input, this`output, env`contexts
      decreases fuel, SizeE(a) + SizeE(b) + 1, 1
      ensures Agrees(r, Semantics.EvalLogic(functions, fuel, isAnd, a, b, old(env.contexts), old(IoState())), env.contexts, IoState())
    {
      var v1 := EvalExp(fuel, a, env);
      if v1.Err? {
        return v1;
      }
      if Decides(isAnd, v1.value) {
        return Ok(Some(BoolV(!isAnd)));
      }
      var v2 := EvalExp(fuel, b, env);
      if v2.Err? {
        return v2;
      }
      var t := Truth(v2.value);
      r := if t.Err? then Err(t.error) else Ok(Some(BoolV(t.value)));
    }

    /** `evaluateFunction`: the arguments in the caller's frames, then the
        call itself. */
    method EvaluateFunction(fuel: nat, e: Exp, env: Env) returns (r: Result<Option<Value>, RuntimeError>)
      requires e.EApp? && env.signatures == functions
      modifies this`input, this`output, env`contexts
      decreases fuel, SizeE(e), 1
      ensures Agrees(r, Semantics.EvalExp(functions, fuel, e, old(env.contexts), old(IoState())), env.contexts, IoState())
    {
      var args := EvalArgs(fuel, e.args, env);
      if args.Err? {
        return Err(args.error);
      }
      r := Call(fuel, e.id, args.value, env);
    }

    /** The argument values, left to right. */
    method EvalArgs(fuel: nat, es: seq<Exp>, env: Env) returns (r: Result<seq<Option<Value>>, RuntimeError>)
      requires env.signatures == functions
      modifies this`input, this`output, env`contexts
      decreases fuel, SizeEs(es), 2
      ensures Agrees(r, Semantics.EvalArgs(functions, fuel, es, old(env.contexts), old(IoState())), env.contexts, IoState())
    {
      ghost var target := Semantics.EvalArgs(functions, fuel, es, env.contexts, IoState());
      var vals := [];
      var rest := es;
      PrependNil(target);
      while rest != []
        invariant SizeEs(rest) <= SizeEs(es)
        invariant target == Prepend(vals, Semantics.EvalArgs(functions, fuel, rest, env.contexts, IoState()))
        decreases |rest|
      {
        ghost var fr, io := env.contexts, IoState();
        var v := EvalExp(fuel, rest[0], env);
        if v.Err? {
          return Err(v.error);
        }
        PrependCons(vals, v.value, Semantics.EvalArgs(functions, fuel, rest[1..], env.contexts, IoState()));
        vals := vals + [v.value];
        rest := rest[1..];
      }
      assert vals + [] == vals;
      return Ok(vals);
    }

    /** The builtins, then a user function. */
    method Call(fuel: nat, f: string, vals: seq<Option<Value>>, env: Env) returns (r: Result<Option<Value>, RuntimeError>)
      requires env.signatures == functions
      modifies this`input, this`output
      decreases fuel, 0, 1
      ensures CallAgrees(r, Semantics.Call(functions, fuel, f, vals, old(IoState())), IoState())
    {
      if f == "printInt" || f == "printDouble" {
        r := Print(fuel, f, vals);
      } else if f == "readInt" || f == "readDouble" {
        r := Read(fuel, f, vals);
      } else {
        r := CallFunction(fuel, f, vals, env);
      }
    }

    /** `printInt` / `printDouble`: the first argument becomes one line of
        output; `null` prints as "null". */
    method Print(fuel: nat, f: string, vals: seq<Option<Value>>) returns (r: Result<Option<Value>, RuntimeError>)
      requires f == "printInt" || f == "printDouble"
      modifies this`output
      ensures CallAgrees(r, Semantics.Call(functions, fuel, f, vals, old(IoState())), IoState())
    {
      if |vals| == 0 {
        return Err(MissingArgument(f));
      }
      if vals[0].None? {
        output := output + [None];
        return Ok(None);
      }
      if f == "printInt" && vals[0].value.IntV? {
        output := output + [Some(vals[0].value.n)];
        return Ok(None);
      }
      return Err(BadCast);
    }

    /** `readInt` / `readDouble`: one line of input is consumed and
        parsed. */
    method Read(fuel: nat, f: string, vals: seq<Option<Value>>) returns (r: Result<Option<Value>, RuntimeError>)
      requires f == "readInt" || f == "readDouble"
      modifies this`input
      ensures CallAgrees(r, Semantics.Call(functions, fuel, f, vals, old(IoState())), IoState())
    {
      if |input| == 0 {
        return Err(InputExhausted);
      }
      var line := input[0];
      input := input[1..];
      if f == "readDouble" {
        return Err(DoubleUnsupported);
      }
      if line.None? {
        return Err(InputParseFailure);
      }
      return Ok(Some(IntV(line.value)));
    }

    /** A user function: its definition from the caller's table, a fresh
        environment holding the parameters, then its body. One unit of
        fuel is spent per call. */
    method CallFunction(fuel: nat, f: string, vals: seq<Option<Value>>, env: Env) returns (r: Result<Option<Value>, RuntimeError>)
      requires f != "printInt" && f != "printDouble" && f != "readInt" && f != "readDouble"
      requires env.signatures == functions
      modifies this`input, this`output
      decreases fuel, 0, 0
      ensures CallAgrees(r, Semantics.Call(functions, fuel, f, vals, old(IoState())), IoState())
    {
      var d := env.LookupFunction(f);
      if d.None? {
        return Err(UndefinedFunction(f));
      }
      var callee, bound := BindArguments(d.value.args, vals);
      if !bound {
        return Err(TooManyArguments(f));
      }
      if fuel == 0 {
        return Err(OutOfFuel);
      }
      r := ExecStms(fuel - 1, d.value.body, callee);
    }

    /** `Env.empty()` and the parameter loop: each argument value bound to
        the next parameter; an argument without a parameter fails. */
    method BindArguments(params: seq<Arg>, vals: seq<Option<Value>>) returns (callee: Env, bound: bool)
      ensures fresh(callee) && callee.signatures == functions
      ensures bound <==> |vals| <= |params|
      ensures bound ==> callee.contexts == [BindParams(map[], params, vals)]
    {
      callee := new Env.Empty(functions);
      var i := 0;
      while i < |vals|
        invariant 0 <= i <= |vals| && i <= |params|
        invariant |callee.contexts| == 1 && callee.signatures == functions
        invariant |vals| <= |params| ==> BindParams(callee.contexts[0], params[i..], vals[i..]) == BindParams(map[], params, vals)
      {
        if i >= |params| {
          return callee, false;
        }
        callee.DeclareVar(params[i].id, vals[i]);
        i := i + 1;
      }
      assert vals[i..] == [];
      assert callee.contexts == [callee.contexts[0]];
      return callee, true;
    }

    /** `StmEval`: one case per statement form; a non-null result is a
        `return` on its way out. */
    method ExecStm(fuel: nat, s: Stm, env: Env) returns (r: Result<Option<Value>, RuntimeError>)
      requires |env.contexts| > 0 && env.signatures == functions
      modifies this`input, this`output, env`contexts
      decreases fuel, SizeS(s), 1
      ensures Agrees(r, Semantics.ExecStm(functions, fuel, s, old(env.contexts), old(IoState())), env.contexts, IoState())
    {
      match s
      case SExp(e) =>
        r := EvalExp(fuel, e, env);
        if r.Ok? {
          r := Ok(None);
        }
      case SDecls(_, ids) =>
        DeclareAll(ids, env);
        r := Ok(None);
      case SInit(_, x, e) =>
        r := EvalExp(fuel, e, env);
        if r.Ok? {
          env.DeclareVar(x, r.value);
          r := Ok(None);
        }
      case SReturn(e) => r := EvalExp(fuel, e, env);
      case SWhile(_, _) => r := ExecWhile(fuel, s, env);
      case SBlock(ss) =>
        env.NewBlock();
        r := ExecStms(fuel, ss, env);
        env.ExitBlock();
      case SIfElse(_, _, _) => r := ExecIfElse(fuel, s, env);
    }

    /** `int x, y;`: each name bound to `null` in the innermost frame. */
    method DeclareAll(ids: seq<string>, env: Env)
      requires |env.contexts| > 0
      modifies env`contexts
      ensures env.contexts == DeclareUnset(old(env.contexts), ids)
    {
      ghost var target := DeclareUnset(env.contexts, ids);
      for i := 0 to |ids|
        invariant |env.contexts| > 0
        invariant DeclareUnset(env.contexts, ids[i..]) == target
      {
        env.DeclareVar(ids[i], None);
      }
    }

    /** `while (c) s` inside one new frame: test, run the body, stop at a
        false test or a non-null result. Each further test costs one unit
        of fuel. */
    method ExecWhile(fuel: nat, s: Stm, env: Env) returns (r: Result<Option<Value>, RuntimeError>)
      requires s.SWhile? && |env.contexts| > 0 && env.signatures == functions
      modifies this`input, this`output, env`contexts
      decreases fuel, SizeS(s), 0
      ensures Agrees(r, Semantics.ExecStm(functions, fuel, s, old(env.contexts), old(IoState())), env.contexts, IoState())
    {
      env.NewBlock();
      ghost var target := Semantics.ExecWhile(functions, fuel, s.cond, s.body, env.contexts, IoState());
      var k: nat := fuel;
      r := Ok(None);
      while true
        invariant k <= fuel && |env.contexts| > 0 && r == Ok(None)
        invariant Semantics.ExecWhile(functions, k, s.cond, s.body, env.contexts, IoState()) == target
        decreases k
      {
        var v := EvalExp(k, s.cond, env);
        if v.Err? {
          return v;
        }
        if v.value == Some(BoolV(false)) {
          break;
        }
        if v.value != Some(BoolV(true)) {
          return Err(BadCast);
        }
        r := ExecStm(k, s.body, env);
        if r.Err? || r.value.Some? {
          break;
        }
        if k == 0 {
          return Err(OutOfFuel);
        }
        k := k - 1;
      }
      env.ExitBlock();
    }

    /** `if (c) s1 else s2` inside one new frame; the test must be a
        Boolean. */
    method ExecIfElse(fuel: nat, s: Stm, env: Env) returns (r: Result<Option<Value>, RuntimeError>)
      requires s.SIfElse? && |env.contexts| > 0 && env.signatures == functions
      modifies this`input, this`output, env`contexts
      decreases fuel, SizeS(s), 0
      ensures Agrees(r, Semantics.ExecStm(functions, fuel, s, old(env.contexts), old(IoState())), env.contexts, IoState())
    {
      env.NewBlock();
      var v := EvalExp(fuel, s.cond, env);
      if v.Err? {
        return v;
      }
      if v.value != Some(BoolV(true)) && v.value != Some(BoolV(false)) {
        return Err(BadCast);
      }
      if v.value == Some(BoolV(true)) {
        r := ExecStm(fuel, s.thn, env);
      } else {
        r := ExecStm(fuel, s.els, env);
      }
      env.ExitBlock();
    }

    /** `FunctionInterpreter`, and the loop of a block: the statements in
        order until one gives a non-null result. */
    method ExecStms(fuel: nat, ss: seq<Stm>, env: Env) returns (r: Result<Option<Value>, RuntimeError>)
      requires |env.contexts| > 0 && env.signatures == functions
      modifies this`input, this`output, env`contexts
      decreases fuel, SizeSs(ss), 1
      ensures Agrees(r, Semantics.ExecStms(functions, fuel, ss, old(env.contexts), old(IoState())), env.contexts, IoState())
    {
      ghost var target := Semantics.ExecStms(functions, fuel, ss, env.contexts, IoState());
      var rest := ss;
      r := Ok(None);
      while rest != []
        invariant |env.contexts| > 0 && r == Ok(None) && SizeSs(rest) <= SizeSs(ss)
        invariant Semantics.ExecStms(functions, fuel, rest, env.contexts, IoState()) == target
        decreases |rest|
      {
        r := ExecStm(fuel, rest[0], env);
        if r.Err? || r.value.Some? {
          return;
        }
        rest := rest[1..];
      }
    }
  }

  /** `interpret`: the base table from every definition in order, then
      `main` in a fresh environment. The result is what was printed. */
  method Interpret(p: Program, input: seq<Option<int32>>, fuel: nat) returns (r: Result<seq<Option<int32>>, RuntimeError>)
    ensures r == RunProgram(p, fuel, input)
  {
    var baseEnv := new Env.Empty(map[]);
    for i := 0 to |p|
      invariant baseEnv.signatures == FunctionTable(p[..i])
    {
      assert p[..i + 1][..i] == p[..i];
      baseEnv.DeclareFunction(p[i].id, p[i]);
    }
    assert p[..|p|] == p;
    var machine := new Interpreter(baseEnv.signatures, input);
    var env := new Env.Empty(machine.functions);
    var main := env.LookupFunction("main");
    if main.None? {
      return Err(UndefinedFunction("main"));
    }
    var ret := machine.ExecStms(fuel, main.value.body, env);
    if ret.Err? {
      return Err(ret.error);
    }
    return Ok(machine.output);
  }
}
