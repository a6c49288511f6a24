/** The meaning of programs as Lab2/Interpreter.java runs them, on int
    and bool values, as pure functions. A `fuel` bound counts loop
    iterations and calls so that every function terminates; running out
    of it is the model's own `OutOfFuel` crash. The imperative
    interpreter in module `Interpreter` is proved equal to these
    functions, and the properties of execution are proved about them. */
module Semantics {
  import opened Wrappers
  import opened Scopes
  import opened Syntax
  import opened JavaInt

  /** A runtime value: a Java `Integer` or `Boolean`. Java `null` (an
      unset variable, the result of a void call) is `None` of an
      `Option<Value>`. */
  datatype Value = IntV(n: int32) | BoolV(b: bool)

  /** Value frames: each name maps to its value or to `null`. */
  type VFrames = Frames<Option<Value>>

  /** Standard input as lines already split (`None` is a line that does
      not parse as an int), and the lines printed so far (`None` is the
      text "null"). */
  datatype Io = Io(input: seq<Option<int32>>, output: seq<Option<int32>>)

  /** The fatal runtime exceptions. */
  datatype RuntimeError =
    | UninitializedRead(id: string)   // "x was used uninitialized!"
    | BadCast                         // ClassCastException or NullPointerException from a cast
    | IncomparableValues              // `==` / `!=` on values of different kinds
    | DivisionByZero                  // ArithmeticException
    | UndefinedFunction(id: string)   // no definition: NullPointerException
    | TooManyArguments(id: string)    // NoSuchElementException from the parameter iterator
    | MissingArgument(id: string)     // NoSuchElementException from `getFirst`
    | InputExhausted                  // `readLine` returned null
    | InputParseFailure               // NumberFormatException
    | DoubleUnsupported               // a double value would be produced
    | OutOfFuel                       // the model's bound on iterations and calls

  /** The result of running something: its Java result (`None` for
      `null`), the new frames and the new I/O state; or a crash. */
  datatype Res<T> = Done(val: T, frames: VFrames, io: Io) | Crash(err: RuntimeError)

  type Functions = map<string, Def>

  /** `lookupVar`: the innermost binding's value, `null` when the name is
      unset or bound nowhere. */
  function LookupVal(fr: VFrames, x: string): Option<Value> {
    match Lookup(fr, x)
    case Some(v) => v
    case None => None
  }

  /** The four operators on two ints; anything else fails a cast. */
  function ArithVal(op: ArithOp, v1: Option<Value>, v2: Option<Value>): Result<Value, RuntimeError> {
    if v1.Some? && v1.value.IntV? && v2.Some? && v2.value.IntV? then
      var a, b := v1.value.n, v2.value.n;
      match op
      case Times => Ok(IntV(Mul(a, b)))
      case Plus => Ok(IntV(Add(a, b)))
      case Minus => Ok(IntV(Sub(a, b)))
      case Div => if b == 0 then Err(DivisionByZero) else Ok(IntV(Quot(a, b)))
    else Err(BadCast)
  }

  /** Comparisons: ordering on two ints; (in)equality on two ints or two
      bools, anything else an error. */
  function CmpVal(op: CmpOp, v1: Option<Value>, v2: Option<Value>): Result<Value, RuntimeError> {
    var ints := v1.Some? && v1.value.IntV? && v2.Some? && v2.value.IntV?;
    var bools := v1.Some? && v1.value.BoolV? && v2.Some? && v2.value.BoolV?;
    match op
    case Eq => if ints || bools then Ok(BoolV(v1 == v2)) else Err(IncomparableValues)
    case NEq => if ints || bools then Ok(BoolV(v1 != v2)) else Err(IncomparableValues)
    case Lt => if ints then Ok(BoolV(v1.value.n < v2.value.n)) else Err(BadCast)
    case Gt => if ints then Ok(BoolV(v1.value.n > v2.value.n)) else Err(BadCast)
    case LtEq => if ints then Ok(BoolV(v1.value.n <= v2.value.n)) else Err(BadCast)
    case GtEq => if ints then Ok(BoolV(v1.value.n >= v2.value.n)) else Err(BadCast)
  }

  /** How `&&` and `||` read an operand as a truth value: a Boolean, or an
      Integer compared with 1; `null` fails its cast. */
  function Truth(v: Option<Value>): Result<bool, RuntimeError> {
    match v
    case Some(BoolV(b)) => Ok(b)
    case Some(IntV(n)) => Ok(n == 1)
    case None => Err(BadCast)
  }

  /** The left operand decides `&&` (false) or `||` (true) on its own. */
  predicate Decides(isAnd: bool, v: Option<Value>) {
    if isAnd then v == Some(BoolV(false)) || (v.Some? && v.value.IntV? && v.value.n != 1)
    else v == Some(BoolV(true)) || v == Some(IntV(1))
  }

  /** The new value of `++` / `--`, wrapping as 32-bit ints do. */
  function Step(op: IncrOp, n: int32): int32 {
    if op == PostIncr || op == PreIncr then Add(n, 1) else Sub(n, 1)
  }

  /** Evaluates `e`, left to right, changing bindings in place. */
  function EvalExp(fns: Functions, fuel: nat, e: Exp, fr: VFrames, io: Io): (r: Res<Option<Value>>)
    decreases fuel, SizeE(e), 2
    ensures r.Done? ==> |r.frames| == |fr|
  {
    match e
    case ETrue => Done(Some(BoolV(true)), fr, io)
    case EFalse => Done(Some(BoolV(false)), fr, io)
    case EInt(n) => Done(Some(IntV(n)), fr, io)
    case EDouble(_) => Crash(DoubleUnsupported)
    case EId(x) =>
      if LookupVal(fr, x).None? then Crash(UninitializedRead(x)) else Done(LookupVal(fr, x), fr, io)
    case EApp(f, args) =>
      var ra := EvalArgs(fns, fuel, args, fr, io);
      if ra.Crash? then Crash(ra.err)
      else
        var rc := Call(fns, fuel, f, ra.val, ra.io);
        if rc.Err? then Crash(rc.error) else Done(rc.value.0, ra.frames, rc.value.1)
    case EIncr(op, a) =>
      if !a.EId? then Crash(BadCast)
      else
        var before := LookupVal(fr, a.id);
        var post := op == PostIncr || op == PostDecr;
        if before.Some? && before.value.IntV? then
          var after := IntV(Step(op, before.value.n));
          Done(if post then before else Some(after), Rebind(fr, a.id, Some(after)), io)
        else Done(if post then before else None, fr, io)
    case EArith(op, a, b) =>
      var ra := EvalExp(fns, fuel, a, fr, io);
      if ra.Crash? then ra
      else
        var rb := EvalExp(fns, fuel, b, ra.frames, ra.io);
        if rb.Crash? then rb
        else
          var v := ArithVal(op, ra.val, rb.val);
          if v.Err? then Crash(v.error) else Done(Some(v.value), rb.frames, rb.io)
    case EAss(a, b) =>
      if !a.EId? then Crash(BadCast)
      else
        var rb := EvalExp(fns, fuel, b, fr, io);
        if rb.Crash? then rb
        else Done(rb.val, Rebind(rb.frames, a.id, rb.val), rb.io)
    case ECmp(op, a, b) =>
      var ra := EvalExp(fns, fuel, a, fr, io);
      if ra.Crash? then ra
      else
        var rb := EvalExp(fns, fuel, b, ra.frames, ra.io);
        if rb.Crash? then rb
        else
          var v := CmpVal(op, ra.val, rb.val);
          if v.Err? then Crash(v.error) else Done(Some(v.value), rb.frames, rb.io)
    case EAnd(a, b) => EvalLogic(fns, fuel, true, a, b, fr, io)
    case EOr(a, b) => EvalLogic(fns, fuel, false, a, b, fr, io)
  }

  /** `a && b` (isAnd) or `a || b`: the right operand runs only when the
      left one does not decide the result. */
  function EvalLogic(fns: Functions, fuel: nat, isAnd: bool, a: Exp, b: Exp, fr: VFrames, io: Io): (r: Res<Option<Value>>)
    decreases fuel, SizeE(a) + SizeE(b) + 1, 1
    ensures r.Done? ==> |r.frames| == |fr|
  {
    var ra := EvalExp(fns, fuel, a, fr, io);
    if ra.Crash? then ra
    else if Decides(isAnd, ra.val) then Done(Some(BoolV(!isAnd)), ra.frames, ra.io)
    else RightOperand(EvalExp(fns, fuel, b, ra.frames, ra.io))
  }

  /** The result of `&&` / `||` taken from its right operand. */
  function RightOperand(rb: Res<Option<Value>>): (r: Res<Option<Value>>)
    ensures r.Done? ==> rb.Done? && r.frames == rb.frames
  {
    if rb.Crash? then rb
    else
      var t := Truth(rb.val);
      if t.Err? then Crash(t.error) else Done(Some(BoolV(t.value)), rb.frames, rb.io)
  }

  /** The arguments of a call, left to right, in the caller's frames. */
  function EvalArgs(fns: Functions, fuel: nat, es: seq<Exp>, fr: VFrames, io: Io): (r: Res<seq<Option<Value>>>)
    decreases fuel, SizeEs(es), 2
    ensures r.Done? ==> |r.frames| == |fr| && |r.val| == |es|
  {
    if es == [] then Done([], fr, io)
    else
      var r0 := EvalExp(fns, fuel, es[0], fr, io);
      if r0.Crash? then Crash(r0.err)
      else
        var rs := EvalArgs(fns, fuel, es[1..], r0.frames, r0.io);
        if rs.Crash? then rs else Done([r0.val] + rs.val, rs.frames, rs.io)
  }

  /** A call on already evaluated arguments: one of the builtins, or a
      user function. Nothing of the caller's frames is passed in. */
  function Call(fns: Functions, fuel: nat, f: string, vals: seq<Option<Value>>, io: Io): Result<(Option<Value>, Io), RuntimeError>
    decreases fuel, 0, 0
  {
    if f == "printInt" || f == "printDouble" then
      if |vals| == 0 then Err(MissingArgument(f))
      else if vals[0].None? then Ok((None, io.(output := io.output + [None])))
      else if f == "printInt" && vals[0].value.IntV? then Ok((None, io.(output := io.output + [Some(vals[0].value.n)])))
      else Err(BadCast)
    else if f == "readInt" || f == "readDouble" then
      if |io.input| == 0 then Err(InputExhausted)
      else if f == "readDouble" then Err(DoubleUnsupported)
      else if io.input[0].None? then Err(InputParseFailure)
      else Ok((Some(IntV(io.input[0].value)), io.(input := io.input[1..])))
    else if f !in fns then Err(UndefinedFunction(f))
    else if |vals| > |fns[f].args| then Err(TooManyArguments(f))
    else if fuel == 0 then Err(OutOfFuel)
    else RunFunction(fns, fuel - 1, fns[f], vals, io)
  }

  /** The callee's fresh environment: one frame binding the parameters to
      the argument values, by position. */
  function BindParams(m: map<string, Option<Value>>, params: seq<Arg>, vals: seq<Option<Value>>): map<string, Option<Value>>
    requires |vals| <= |params|
    decreases |vals|
  {
    if vals == [] then m else BindParams(m[params[0].id := vals[0]], params[1..], vals[1..])
  }

  /** `FunctionInterpreter`: the body in its own environment; the result
      is the first non-null statement result, if any. */
  function RunFunction(fns: Functions, fuel: nat, d: Def, vals: seq<Option<Value>>, io: Io): Result<(Option<Value>, Io), RuntimeError>
    requires |vals| <= |d.args|
    decreases fuel, SizeSs(d.body) + 1, 0
  {
    var r := ExecStms(fns, fuel, d.body, [BindParams(map[], d.args, vals)], io);
    if r.Crash? then Err(r.err) else Ok((r.val, r.io))
  }

  /** `int x, y;` binds each name to `null` in the innermost frame. */
  function DeclareUnset(fr: VFrames, ids: seq<string>): (r: VFrames)
    requires |fr| > 0
    ensures |r| == |fr|
    decreases |ids|
  {
    if ids == [] then fr else DeclareUnset(Declare(fr, ids[0], None), ids[1..])
  }

  /** Runs one statement; a non-null result is a `return` that must
      propagate. However it ends, the frame count is the one it began with. */
  function ExecStm(fns: Functions, fuel: nat, s: Stm, fr: VFrames, io: Io): (r: Res<Option<Value>>)
    requires |fr| > 0
    decreases fuel, SizeS(s), 1
    ensures r.Done? ==> |r.frames| == |fr|
  {
    match s
    case SExp(e) =>
      var re := EvalExp(fns, fuel, e, fr, io);
      if re.Crash? then re else Done(None, re.frames, re.io)
    case SDecls(_, ids) => Done(None, DeclareUnset(fr, ids), io)
    case SInit(_, x, e) =>
      var re := EvalExp(fns, fuel, e, fr, io);
      if re.Crash? then re else Done(None, Declare(re.frames, x, re.val), re.io)
    case SReturn(e) => EvalExp(fns, fuel, e, fr, io)
    case SWhile(c, body) =>
      var rw := ExecWhile(fns, fuel, c, body, Push(fr), io);
      if rw.Crash? then rw else Done(rw.val, Pop(rw.frames), rw.io)
    case SBlock(ss) =>
      var rb := ExecStms(fns, fuel, ss, Push(fr), io);
      if rb.Crash? then rb else Done(rb.val, Pop(rb.frames), rb.io)
    case SIfElse(c, s1, s2) =>
      var rc := EvalExp(fns, fuel, c, Push(fr), io);
      if rc.Crash? then rc
      else if rc.val != Some(BoolV(true)) && rc.val != Some(BoolV(false)) then Crash(BadCast)
      else
        var rs := ExecStm(fns, fuel, if rc.val == Some(BoolV(true)) then s1 else s2, rc.frames, rc.io);
        if rs.Crash? then rs else Done(rs.val, Pop(rs.frames), rs.io)
  }

  /** The loop of `SWhile`, inside the one frame pushed for it: test the
      condition, run the body, stop at the first non-null result. */
  function ExecWhile(fns: Functions, fuel: nat, c: Exp, body: Stm, fr: VFrames, io: Io): (r: Res<Option<Value>>)
    requires |fr| > 0
    decreases fuel, SizeE(c) + SizeS(body) + 1, 1
    ensures r.Done? ==> |r.frames| == |fr|
  {
    var rc := EvalExp(fns, fuel, c, fr, io);
    if rc.Crash? then rc
    else if rc.val == Some(BoolV(false)) then Done(None, rc.frames, rc.io)
    else if rc.val != Some(BoolV(true)) then Crash(BadCast)
    else Reenter(fns, fuel, c, body, ExecStm(fns, fuel, body, rc.frames, rc.io))
  }

  /** After one run of the loop body: stop at a crash or a non-null
      result, otherwise spend one unit of fuel and test again. */
  function Reenter(fns: Functions, fuel: nat, c: Exp, body: Stm, rb: Res<Option<Value>>): (r: Res<Option<Value>>)
    requires rb.Done? ==> |rb.frames| > 0
    decreases fuel, SizeE(c) + SizeS(body) + 1, 0
    ensures r.Done? ==> rb.Done? && |r.frames| == |rb.frames|
  {
    if rb.Crash? || rb.val.Some? then rb
    else if fuel == 0 then Crash(OutOfFuel)
    else ExecWhile(fns, fuel - 1, c, body, rb.frames, rb.io)
  }

  /** A statement sequence, stopping at the first non-null result. */
  function ExecStms(fns: Functions, fuel: nat, ss: seq<Stm>, fr: VFrames, io: Io): (r: Res<Option<Value>>)
    requires |fr| > 0
    decreases fuel, SizeSs(ss), 1
    ensures r.Done? ==> |r.frames| == |fr|
  {
    if ss == [] then Done(None, fr, io)
    else
      var r0 := ExecStm(fns, fuel, ss[0], fr, io);
      if r0.Crash? || r0.val.Some? then r0
      else ExecStms(fns, fuel, ss[1..], r0.frames, r0.io)
  }

  /** The global function table: every definition under its name, a
      later one replacing an earlier one of the same name (`HashMap.put`). */
  function FunctionTable(p: Program): Functions
    decreases |p|
  {
    if p == [] then map[] else FunctionTable(p[..|p| - 1])[p[|p| - 1].id := p[|p| - 1]]
  }

  /** `interpret`: run `main` with no arguments on the given input; the
      result is everything printed. */
  function RunProgram(p: Program, fuel: nat, input: seq<Option<int32>>): Result<seq<Option<int32>>, RuntimeError> {
    var fns := FunctionTable(p);
    if "main" !in fns then Err(UndefinedFunction("main"))
    else
      var r := RunFunction(fns, fuel, fns["main"], [], Io(input, []));
      if r.Err? then Err(r.error) else Ok(r.value.1.output)
  }
}
