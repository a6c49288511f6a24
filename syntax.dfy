/** Static types, function signatures and the errors of the static pass. */
module Types {

  /** `Type_int`, `Type_double`, `Type_bool`, `Type_void`; compared by
      exact structural equality. */
  datatype Type = TInt | TDouble | TBool | TVoid

  /** `FunType`: the parameter types in order and the return type. */
  datatype FunType = FunType(params: seq<Type>, ret: Type)

  /** The `TypeException`s of the checker and of its environments. */
  datatype TypeError =
    | UndefinedFunction(id: string)
    | DuplicateFunction(id: string)
    | UndeclaredVar(id: string)
    | DuplicateVar(id: string)
    | InvalidMain
    | InitMismatch(id: string, declared: Type, actual: Type)
    | ReturnMismatch(declared: Type, actual: Type)
    | ConditionNotBool(actual: Type)
    | ArityMismatch(id: string, paramCount: nat, argCount: nat)
    | ArgumentMismatch(id: string, position: nat, expected: Type, actual: Type)
    | NotNumeric(actual: Type)
    | OperandMismatch(left: Type, right: Type)
    | NotArithmetic(actual: Type)
    | NotComparable(actual: Type)
    | NoFrame                        // `getLast` on an empty frame stack
}

/** The abstract syntax that the external parser produces. */
module Syntax {
  import opened Types

  /** Java `int`: a 32-bit two's-complement integer. */
  newtype int32 = x: int | -0x8000_0000 <= x < 0x8000_0000

  datatype ArithOp = Times | Div | Plus | Minus
  datatype CmpOp = Lt | Gt | LtEq | GtEq | Eq | NEq
  datatype IncrOp = PostIncr | PostDecr | PreIncr | PreDecr

  /** Expressions. The grammar only lets an identifier stand under an
      increment or on the left of `=`, but the tree itself allows any
      expression there, as the parser's classes do. */
  datatype Exp =
    | ETrue
    | EFalse
    | EInt(n: int32)
    | EDouble(d: real)
    | EId(id: string)
    | EApp(id: string, args: seq<Exp>)
    | EIncr(incr: IncrOp, e: Exp)
    | EArith(aop: ArithOp, e1: Exp, e2: Exp)
    | EAss(e1: Exp, e2: Exp)
    | ECmp(cop: CmpOp, e1: Exp, e2: Exp)
    | EAnd(e1: Exp, e2: Exp)
    | EOr(e1: Exp, e2: Exp)

  datatype Stm =
    | SExp(e: Exp)
    | SDecls(t: Type, ids: seq<string>)
    | SInit(t: Type, id: string, e: Exp)
    | SReturn(e: Exp)
    | SWhile(cond: Exp, body: Stm)
    | SBlock(stms: seq<Stm>)
    | SIfElse(cond: Exp, thn: Stm, els: Stm)

  datatype Arg = ADecl(t: Type, id: string)

  /** `DFun`: return type, name, parameters, body. */
  datatype Def = DFun(t: Type, id: string, args: seq<Arg>, body: seq<Stm>)

  type Program = seq<Def>

  /** The signature a definition declares. */
  function SignatureOf(d: Def): (ft: FunType)
    ensures |ft.params| == |d.args|
    ensures forall i :: 0 <= i < |d.args| ==> ft.params[i] == d.args[i].t
    ensures ft.ret == d.t
  {
    FunType(ParamTypes(d.args), d.t)
  }

  function ParamTypes(args: seq<Arg>): seq<Type> {
    seq(|args|, i requires 0 <= i < |args| => args[i].t)
  }

  function ParamIds(args: seq<Arg>): seq<string> {
    seq(|args|, i requires 0 <= i < |args| => args[i].id)
  }

  // Sizes, used as termination measures by the recursive passes.

  function SizeE(e: Exp): nat
    decreases e, 1
  {
    match e
    case EApp(_, args) => SizeEs(args) + 1
    case EIncr(_, a) => SizeE(a) + 1
    case EArith(_, a, b) => SizeE(a) + SizeE(b) + 1
    case EAss(a, b) => SizeE(a) + SizeE(b) + 1
    case ECmp(_, a, b) => SizeE(a) + SizeE(b) + 1
    case EAnd(a, b) => SizeE(a) + SizeE(b) + 1
    case EOr(a, b) => SizeE(a) + SizeE(b) + 1
    case _ => 1
  }

  function SizeEs(es: seq<Exp>): nat
    decreases es, 0
  {
    if es == [] then 0 else SizeE(es[0]) + SizeEs(es[1..]) + 1
  }

  function SizeS(s: Stm): nat
    decreases s, 1
  {
    match s
    case SExp(e) => SizeE(e) + 1
    case SDecls(_, _) => 1
    case SInit(_, _, e) => SizeE(e) + 1
    case SReturn(e) => SizeE(e) + 1
    case SWhile(c, b) => SizeE(c) + SizeS(b) + 2
    case SBlock(ss) => SizeSs(ss) + 1
    case SIfElse(c, s1, s2) => SizeE(c) + SizeS(s1) + SizeS(s2) + 1
  }

  function SizeSs(ss: seq<Stm>): nat
    decreases ss, 0
  {
    if ss == [] then 0 else SizeS(ss[0]) + SizeSs(ss[1..]) + 1
  }
}
