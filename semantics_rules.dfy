/** Properties of execution, proved about the functions of `Semantics`. */
module SemanticsRules {
  import opened Wrappers
  import opened Scopes
  import opened Types
  import opened Syntax
  import opened JavaInt
  import opened Semantics

  // ---------------------------------------------------------------------
  // Scoping: what evaluation can and cannot do to the frames

  /** The outer frames of `gs` bind the same names as those of `fs`: only
      the innermost frame may have gained bindings. */
  ghost predicate OuterSame<T>(fs: Frames<T>, gs: Frames<T>) {
    |fs| == |gs| && |fs| > 0 &&
    (forall j :: 0 <= j < |fs| - 1 ==> fs[j].Keys == gs[j].Keys) &&
    fs[|fs| - 1].Keys <= gs[|fs| - 1].Keys
  }

  /** The names a statement declares in the current frame. */
  function Declared(s: Stm): set<string> {
    match s
    case SDecls(_, ids) => set i | 0 <= i < |ids| :: ids[i]
    case SInit(_, x, _) => {x}
    case _ => {}
  }

  /** An expression never creates or removes a binding: assignments and
      increments only change values of names already bound. */
  lemma {:induction false} EvalExpShape(fns: Functions, fuel: nat, e: Exp, fr: VFrames, io: Io)
    decreases fuel, SizeE(e), 2
    ensures EvalExp(fns, fuel, e, fr, io).Done? ==> SameShape(fr, EvalExp(fns, fuel, e, fr, io).frames)
  {
    match e
    case EApp(f, args) => EvalArgsShape(fns, fuel, args, fr, io);
    case EIncr(op, a) =>
      if a.EId? {
        if LookupVal(fr, a.id).Some? && LookupVal(fr, a.id).value.IntV? {
          RebindOnlyNearest(fr, a.id, Some(IntV(Step(op, LookupVal(fr, a.id).value.n))));
        }
      }
    case EArith(_, a, b) =>
      EvalExpShape(fns, fuel, a, fr, io);
      var ra := EvalExp(fns, fuel, a, fr, io);
      if ra.Done? { EvalExpShape(fns, fuel, b, ra.frames, ra.io); }
    case EAss(a, b) =>
      EvalExpShape(fns, fuel, b, fr, io);
      var rb := EvalExp(fns, fuel, b, fr, io);
      if a.EId? && rb.Done? { RebindOnlyNearest(rb.frames, a.id, rb.val); }
    case ECmp(_, a, b) =>
      EvalExpShape(fns, fuel, a, fr, io);
      var ra := EvalExp(fns, fuel, a, fr, io);
      if ra.Done? { EvalExpShape(fns, fuel, b, ra.frames, ra.io); }
    case EAnd(a, b) => EvalLogicShape(fns, fuel, true, a, b, fr, io);
    case EOr(a, b) => EvalLogicShape(fns, fuel, false, a, b, fr, io);
    case _ =>
  }

  lemma {:induction false} EvalLogicShape(fns: Functions, fuel: nat, isAnd: bool, a: Exp, b: Exp, fr: VFrames, io: Io)
    decreases fuel, SizeE(a) + SizeE(b) + 1, 1
    ensures EvalLogic(fns, fuel, isAnd, a, b, fr, io).Done? ==>
              SameShape(fr, EvalLogic(fns, fuel, isAnd, a, b, fr, io).frames)
  {
    EvalExpShape(fns, fuel, a, fr, io);
    var ra := EvalExp(fns, fuel, a, fr, io);
    if ra.Done? { EvalExpShape(fns, fuel, b, ra.frames, ra.io); }
  }

  lemma {:induction false} EvalArgsShape(fns: Functions, fuel: nat, es: seq<Exp>, fr: VFrames, io: Io)
    decreases fuel, SizeEs(es), 2
    ensures EvalArgs(fns, fuel, es, fr, io).Done? ==> SameShape(fr, EvalArgs(fns, fuel, es, fr, io).frames)
  {
    if es != [] {
      EvalExpShape(fns, fuel, es[0], fr, io);
      var r0 := EvalExp(fns, fuel, es[0], fr, io);
      if r0.Done? { EvalArgsShape(fns, fuel, es[1..], r0.frames, r0.io); }
    }
  }

  /** `int x, y;` adds exactly its names to the current frame. */
  lemma {:induction false} DeclareUnsetShape(fr: VFrames, ids: seq<string>)
    requires |fr| > 0
    decreases |ids|
    ensures DeclareUnset(fr, ids)[..|fr| - 1] == fr[..|fr| - 1]
    ensures DeclareUnset(fr, ids)[|fr| - 1].Keys == fr[|fr| - 1].Keys + set i | 0 <= i < |ids| :: ids[i]
  {
    if ids != [] {
      var fr1 := Declare(fr, ids[0], None);
      DeclareUnsetShape(fr1, ids[1..]);
      assert (set i | 0 <= i < |ids| :: ids[i]) == {ids[0]} + set i | 0 <= i < |ids[1..]| :: ids[1..][i];
    }
  }

  /** `int x, y;` leaves every listed name bound to `null` (a repeated
      name too, since `put` overwrites) and every other name seen as
      before. */
  lemma {:induction false} DeclareUnsetValues(fr: VFrames, ids: seq<string>)
    requires |fr| > 0
    decreases |ids|
    ensures forall i :: 0 <= i < |ids| ==> Lookup(DeclareUnset(fr, ids), ids[i]) == Some(None)
    ensures forall y :: y !in ids ==> Lookup(DeclareUnset(fr, ids), y) == Lookup(fr, y)
  {
    if ids != [] {
      var fr1 := Declare(fr, ids[0], None);
      DeclareUnsetValues(fr1, ids[1..]);
      var r := DeclareUnset(fr, ids);
      assert r == DeclareUnset(fr1, ids[1..]);
      forall i | 0 <= i < |ids|
        ensures Lookup(r, ids[i]) == Some(None)
      {
        if i > 0 {
          assert ids[i] == ids[1..][i - 1];
        } else if ids[0] in ids[1..] {
          var j :| 0 <= j < |ids[1..]| && ids[1..][j] == ids[0];
        } else {
          LookupDeclare(fr, ids[0], None, ids[0]);
        }
      }
      forall y | y !in ids
        ensures Lookup(r, y) == Lookup(fr, y)
      {
        assert y != ids[0] && y !in ids[1..];
        LookupDeclare(fr, ids[0], None, y);
      }
    }
  }

  /** Blocks scope their declarations: a statement adds to the current
      frame exactly the names it declares, binds nothing new further out,
      and every block it opens is gone when it finishes. */
  lemma {:induction false} ExecStmShape(fns: Functions, fuel: nat, s: Stm, fr: VFrames, io: Io)
    requires |fr| > 0
    decreases fuel, SizeS(s), 1
    ensures var r := ExecStm(fns, fuel, s, fr, io);
      r.Done? ==> OuterSame(fr, r.frames) &&
                  r.frames[|fr| - 1].Keys == fr[|fr| - 1].Keys + Declared(s)
  {
    match s
    case SExp(e) => EvalExpShape(fns, fuel, e, fr, io);
    case SDecls(_, ids) => DeclareUnsetShape(fr, ids);
    case SInit(_, x, e) => EvalExpShape(fns, fuel, e, fr, io);
    case SReturn(e) => EvalExpShape(fns, fuel, e, fr, io);
    case SWhile(c, body) =>
      ExecWhileShape(fns, fuel, c, body, Push(fr), io);
      var rw := ExecWhile(fns, fuel, c, body, Push(fr), io);
      if rw.Done? { PopRestores(fr, rw.frames); }
    case SBlock(ss) =>
      ExecStmsShape(fns, fuel, ss, Push(fr), io);
      var rb := ExecStms(fns, fuel, ss, Push(fr), io);
      if rb.Done? { PopRestores(fr, rb.frames); }
    case SIfElse(c, s1, s2) =>
      IfElseShape(fns, fuel, c, s1, s2, fr, io);
  }

  /** Popping the frame pushed for a block restores the names bound. */
  lemma PopRestores<T>(fr: Frames<T>, gs: Frames<T>)
    requires OuterSame(Push(fr), gs)
    ensures SameShape(fr, Pop(gs))
  {
  }

  lemma {:induction false} IfElseShape(fns: Functions, fuel: nat, c: Exp, s1: Stm, s2: Stm, fr: VFrames, io: Io)
    requires |fr| > 0
    decreases fuel, SizeS(SIfElse(c, s1, s2)), 0
    ensures ExecStm(fns, fuel, SIfElse(c, s1, s2), fr, io).Done? ==>
              SameShape(fr, ExecStm(fns, fuel, SIfElse(c, s1, s2), fr, io).frames)
  {
    EvalExpShape(fns, fuel, c, Push(fr), io);
    var rc := EvalExp(fns, fuel, c, Push(fr), io);
    if rc.Done? && (rc.val == Some(BoolV(true)) || rc.val == Some(BoolV(false))) {
      var branch := if rc.val == Some(BoolV(true)) then s1 else s2;
      ExecStmShape(fns, fuel, branch, rc.frames, rc.io);
      var rs := ExecStm(fns, fuel, branch, rc.frames, rc.io);
      if rs.Done? {
        assert OuterSame(Push(fr), rs.frames);
        PopRestores(fr, rs.frames);
        assert ExecStm(fns, fuel, SIfElse(c, s1, s2), fr, io) == Done(rs.val, Pop(rs.frames), rs.io);
      }
    }
  }

  lemma {:induction false} ExecWhileShape(fns: Functions, fuel: nat, c: Exp, body: Stm, fr: VFrames, io: Io)
    requires |fr| > 0
    decreases fuel, SizeE(c) + SizeS(body) + 1, 1
    ensures ExecWhile(fns, fuel, c, body, fr, io).Done? ==> OuterSame(fr, ExecWhile(fns, fuel, c, body, fr, io).frames)
  {
    EvalExpShape(fns, fuel, c, fr, io);
    match EvalExp(fns, fuel, c, fr, io)
    case Crash(_) =>
    case Done(v, fc, ioc) =>
      if v == Some(BoolV(true)) {
        var rb := ExecStm(fns, fuel, body, fc, ioc);
        ExecStmShape(fns, fuel, body, fc, ioc);
        ReenterShape(fns, fuel, c, body, rb);
        match Reenter(fns, fuel, c, body, rb)
        case Crash(_) =>
        case Done(_, fw, _) => OuterSameTrans(fr, fc, rb.frames, fw);
      } else {
        OuterSameTrans(fr, fc, fc, fc);
      }
  }

  /** Shapes compose: an expression's frames, then two statements'. */
  lemma OuterSameTrans<T>(a: Frames<T>, b: Frames<T>, c: Frames<T>, d: Frames<T>)
    requires |a| > 0 && SameShape(a, b) && OuterSame(b, c) && OuterSame(c, d)
    ensures OuterSame(a, d)
  {
  }

  lemma {:induction false} ReenterShape(fns: Functions, fuel: nat, c: Exp, body: Stm, rb: Res<Option<Value>>)
    requires rb.Done? ==> |rb.frames| > 0
    decreases fuel, SizeE(c) + SizeS(body) + 1, 0
    ensures Reenter(fns, fuel, c, body, rb).Done? ==> OuterSame(rb.frames, Reenter(fns, fuel, c, body, rb).frames)
  {
    if rb.Done? && rb.val.None? && fuel > 0 {
      assert Reenter(fns, fuel, c, body, rb) == ExecWhile(fns, fuel - 1, c, body, rb.frames, rb.io);
      ExecWhileShape(fns, fuel - 1, c, body, rb.frames, rb.io);
    }
  }

  lemma {:induction false} ExecStmsShape(fns: Functions, fuel: nat, ss: seq<Stm>, fr: VFrames, io: Io)
    requires |fr| > 0
    decreases fuel, SizeSs(ss), 1
    ensures ExecStms(fns, fuel, ss, fr, io).Done? ==> OuterSame(fr, ExecStms(fns, fuel, ss, fr, io).frames)
  {
    if ss != [] {
      ExecStmShape(fns, fuel, ss[0], fr, io);
      var r0 := ExecStm(fns, fuel, ss[0], fr, io);
      if r0.Done? && r0.val.None? {
        ExecStmsShape(fns, fuel, ss[1..], r0.frames, r0.io);
      }
    }
  }

  /** A declaration inside a block is invisible after it: a name bound
      nowhere before a block is bound nowhere after it. */
  lemma BlockHidesDeclarations(fns: Functions, fuel: nat, ss: seq<Stm>, fr: VFrames, io: Io, x: string)
    requires |fr| > 0
    requires Lookup(fr, x).None?
    requires ExecStm(fns, fuel, SBlock(ss), fr, io).Done?
    ensures Lookup(ExecStm(fns, fuel, SBlock(ss), fr, io).frames, x).None?
  {
    ExecStmShape(fns, fuel, SBlock(ss), fr, io);
    var gs := ExecStm(fns, fuel, SBlock(ss), fr, io).frames;
    LookupInnermost(fr, x);
    LookupInnermost(gs, x);
    assert forall j :: 0 <= j < |gs| ==> gs[j].Keys == fr[j].Keys;
  }

  // ---------------------------------------------------------------------
  // Statement sequences and `return`

  /** Running `ss1 + ss2` runs `ss1`, and then `ss2` only when `ss1`
      finished without crashing and without a non-null result. */
  lemma {:induction false} StmsAppend(fns: Functions, fuel: nat, ss1: seq<Stm>, ss2: seq<Stm>, fr: VFrames, io: Io)
    requires |fr| > 0
    decreases |ss1|
    ensures var r1 := ExecStms(fns, fuel, ss1, fr, io);
      ExecStms(fns, fuel, ss1 + ss2, fr, io) ==
        if r1.Crash? || r1.val.Some? then r1 else ExecStms(fns, fuel, ss2, r1.frames, r1.io)
  {
    if ss1 == [] {
      assert ss1 + ss2 == ss2;
    } else {
      assert (ss1 + ss2)[0] == ss1[0];
      assert (ss1 + ss2)[1..] == ss1[1..] + ss2;
      var r0 := ExecStm(fns, fuel, ss1[0], fr, io);
      if r0.Done? && r0.val.None? {
        StmsAppend(fns, fuel, ss1[1..], ss2, r0.frames, r0.io);
      }
    }
  }

  /** A `return` with a non-null value ends the sequence: nothing after
      it runs. */
  lemma ReturnSkipsRest(fns: Functions, fuel: nat, e: Exp, rest: seq<Stm>, fr: VFrames, io: Io)
    requires |fr| > 0
    requires EvalExp(fns, fuel, e, fr, io).Done? && EvalExp(fns, fuel, e, fr, io).val.Some?
    ensures ExecStms(fns, fuel, [SReturn(e)] + rest, fr, io) == EvalExp(fns, fuel, e, fr, io)
  {
    assert ([SReturn(e)] + rest)[0] == SReturn(e);
  }

  /** A `return` whose value is `null` (a void call) does not end the
      sequence: the statements after it run as if it were an expression
      statement. */
  lemma NullReturnFallsThrough(fns: Functions, fuel: nat, e: Exp, rest: seq<Stm>, fr: VFrames, io: Io)
    requires |fr| > 0
    requires EvalExp(fns, fuel, e, fr, io).Done? && EvalExp(fns, fuel, e, fr, io).val.None?
    ensures var re := EvalExp(fns, fuel, e, fr, io);
      ExecStms(fns, fuel, [SReturn(e)] + rest, fr, io) == ExecStms(fns, fuel, rest, re.frames, re.io)
  {
    assert ([SReturn(e)] + rest)[0] == SReturn(e);
    assert ([SReturn(e)] + rest)[1..] == rest;
  }

  /** A loop whose condition is false runs nothing and changes nothing
      but what the condition did. */
  lemma WhileFalse(fns: Functions, fuel: nat, c: Exp, body: Stm, fr: VFrames, io: Io)
    requires |fr| > 0
    requires EvalExp(fns, fuel, c, Push(fr), io).Done? && EvalExp(fns, fuel, c, Push(fr), io).val == Some(BoolV(false))
    ensures var rc := EvalExp(fns, fuel, c, Push(fr), io);
      ExecStm(fns, fuel, SWhile(c, body), fr, io) == Done(None, Pop(rc.frames), rc.io)
  {
  }

  /** A loop ends at the first body run with a non-null result, and that
      result is the loop's. */
  lemma WhileStopsAtReturn(fns: Functions, fuel: nat, c: Exp, body: Stm, fr: VFrames, io: Io)
    requires |fr| > 0
    requires EvalExp(fns, fuel, c, fr, io).Done? && EvalExp(fns, fuel, c, fr, io).val == Some(BoolV(true))
    requires var rc := EvalExp(fns, fuel, c, fr, io);
      ExecStm(fns, fuel, body, rc.frames, rc.io).Done? && ExecStm(fns, fuel, body, rc.frames, rc.io).val.Some?
    ensures var rc := EvalExp(fns, fuel, c, fr, io);
      ExecWhile(fns, fuel, c, body, fr, io) == ExecStm(fns, fuel, body, rc.frames, rc.io)
  {
  }

  // ---------------------------------------------------------------------
  // Expressions

  /** Postfix `x++` / `x--` on an int: the old value is the result and
      the wrapped successor / predecessor is stored in the nearest frame
      holding `x`; no other name changes. */
  lemma PostfixRule(fns: Functions, fuel: nat, op: IncrOp, x: string, n: int32, fr: VFrames, io: Io, y: string)
    requires op == PostIncr || op == PostDecr
    requires LookupVal(fr, x) == Some(IntV(n))
    ensures var r := EvalExp(fns, fuel, EIncr(op, EId(x)), fr, io);
      r.Done? && r.val == Some(IntV(n)) && r.io == io &&
      LookupVal(r.frames, x) == Some(IntV(Wrap(if op == PostIncr then n as int + 1 else n as int - 1))) &&
      (y != x ==> LookupVal(r.frames, y) == LookupVal(fr, y))
  {
    LookupRebind(fr, x, Some(IntV(Step(op, n))), x);
    LookupRebind(fr, x, Some(IntV(Step(op, n))), y);
  }

  /** Prefix `++x` / `--x` on an int: the stored value is the result. */
  lemma PrefixRule(fns: Functions, fuel: nat, op: IncrOp, x: string, n: int32, fr: VFrames, io: Io, y: string)
    requires op == PreIncr || op == PreDecr
    requires LookupVal(fr, x) == Some(IntV(n))
    ensures var r := EvalExp(fns, fuel, EIncr(op, EId(x)), fr, io);
      r.Done? && r.val == Some(IntV(Wrap(if op == PreIncr then n as int + 1 else n as int - 1))) &&
      LookupVal(r.frames, x) == r.val && r.io == io &&
      (y != x ==> LookupVal(r.frames, y) == LookupVal(fr, y))
  {
    LookupRebind(fr, x, Some(IntV(Step(op, n))), x);
    LookupRebind(fr, x, Some(IntV(Step(op, n))), y);
  }

  /** `++` / `--` on a name that is unset or bound to a bool stores
      nothing: the postfix form yields the old value, the prefix form
      `null`. */
  lemma IncrementNonInt(fns: Functions, fuel: nat, op: IncrOp, x: string, fr: VFrames, io: Io)
    requires !(LookupVal(fr, x).Some? && LookupVal(fr, x).value.IntV?)
    ensures EvalExp(fns, fuel, EIncr(op, EId(x)), fr, io) ==
            Done(if op == PostIncr || op == PostDecr then LookupVal(fr, x) else None, fr, io)
  {
  }

  /** Assignment evaluates the right side, stores its value in the
      nearest frame holding the name (or nowhere, silently), and yields
      it; an assignment to anything but a name fails before the right
      side runs. */
  lemma AssignRule(fns: Functions, fuel: nat, a: Exp, b: Exp, fr: VFrames, io: Io, y: string)
    ensures !a.EId? ==> EvalExp(fns, fuel, EAss(a, b), fr, io) == Crash(BadCast)
    ensures a.EId? && EvalExp(fns, fuel, b, fr, io).Done? ==>
      var rb := EvalExp(fns, fuel, b, fr, io);
      var r := EvalExp(fns, fuel, EAss(a, b), fr, io);
      r.Done? && r.val == rb.val && r.io == rb.io &&
      LookupVal(r.frames, y) ==
        if y == a.id && Lookup(rb.frames, y).Some? then rb.val else LookupVal(rb.frames, y)
  {
    if a.EId? && EvalExp(fns, fuel, b, fr, io).Done? {
      var rb := EvalExp(fns, fuel, b, fr, io);
      LookupRebind(rb.frames, a.id, rb.val, y);
    }
  }

  /** `&&` does not evaluate its right operand once the left one is
      false (or an int other than 1): any two right operands agree. */
  lemma AndShortCircuit(fns: Functions, fuel: nat, a: Exp, b1: Exp, b2: Exp, fr: VFrames, io: Io)
    requires EvalExp(fns, fuel, a, fr, io).Done? && Decides(true, EvalExp(fns, fuel, a, fr, io).val)
    ensures EvalExp(fns, fuel, EAnd(a, b1), fr, io) == EvalExp(fns, fuel, EAnd(a, b2), fr, io)
    ensures EvalExp(fns, fuel, EAnd(a, b1), fr, io).Done? &&
            EvalExp(fns, fuel, EAnd(a, b1), fr, io).val == Some(BoolV(false))
  {
  }

  /** `||` does not evaluate its right operand once the left one is
      true (or the int 1). */
  lemma OrShortCircuit(fns: Functions, fuel: nat, a: Exp, b1: Exp, b2: Exp, fr: VFrames, io: Io)
    requires EvalExp(fns, fuel, a, fr, io).Done? && Decides(false, EvalExp(fns, fuel, a, fr, io).val)
    ensures EvalExp(fns, fuel, EOr(a, b1), fr, io) == EvalExp(fns, fuel, EOr(a, b2), fr, io)
    ensures EvalExp(fns, fuel, EOr(a, b1), fr, io).Done? &&
            EvalExp(fns, fuel, EOr(a, b1), fr, io).val == Some(BoolV(true))
  {
  }

  /** On two booleans `&&` and `||` are the boolean operators. */
  lemma LogicOnBools(fns: Functions, fuel: nat, isAnd: bool, a: Exp, b: Exp, fr: VFrames, io: Io, p: bool, q: bool)
    requires EvalExp(fns, fuel, a, fr, io).Done? && EvalExp(fns, fuel, a, fr, io).val == Some(BoolV(p))
    requires var ra := EvalExp(fns, fuel, a, fr, io);
      EvalExp(fns, fuel, b, ra.frames, ra.io).Done? && EvalExp(fns, fuel, b, ra.frames, ra.io).val == Some(BoolV(q))
    ensures EvalLogic(fns, fuel, isAnd, a, b, fr, io).Done?
    ensures EvalLogic(fns, fuel, isAnd, a, b, fr, io).val == Some(BoolV(if isAnd then p && q else p || q))
  {
  }

  /** `==` and `!=` compare two ints or two bools by value; any other
      pair of operands is an error, and never a silent `false`. */
  lemma EqualityRule(op: CmpOp, v1: Option<Value>, v2: Option<Value>)
    requires op == Eq || op == NEq
    ensures CmpVal(op, v1, v2).Ok? <==>
            v1.Some? && v2.Some? && (v1.value.IntV? == v2.value.IntV?)
    ensures CmpVal(op, v1, v2).Ok? ==> CmpVal(op, v1, v2).value == BoolV((v1 == v2) == (op == Eq))
    ensures CmpVal(op, v1, v2).Err? ==> CmpVal(op, v1, v2).error == IncomparableValues
  {
  }

  /** Integer arithmetic is Java's: wrapped to 32 bits, division
      truncating toward zero, and division by zero an error. */
  lemma ArithRule(op: ArithOp, a: int32, b: int32)
    ensures ArithVal(op, Some(IntV(a)), Some(IntV(b))) ==
      match op
      case Times => Ok(IntV(Wrap(a as int * b as int)))
      case Plus => Ok(IntV(Wrap(a as int + b as int)))
      case Minus => Ok(IntV(Wrap(a as int - b as int)))
      case Div => if b == 0 then Err(DivisionByZero) else Ok(IntV(Wrap(TruncDiv(a as int, b as int))))
  {
  }

  /** Operands that are not both ints fail a cast in arithmetic. */
  lemma ArithNeedsInts(op: ArithOp, v1: Option<Value>, v2: Option<Value>)
    requires !(v1.Some? && v1.value.IntV? && v2.Some? && v2.value.IntV?)
    ensures ArithVal(op, v1, v2) == Err(BadCast)
  {
  }

  /** Expressions without assignments, increments or calls. */
  predicate ReadOnly(e: Exp) {
    match e
    case EApp(_, _) => false
    case EIncr(_, _) => false
    case EAss(_, _) => false
    case EArith(_, a, b) => ReadOnly(a) && ReadOnly(b)
    case ECmp(_, a, b) => ReadOnly(a) && ReadOnly(b)
    case EAnd(a, b) => ReadOnly(a) && ReadOnly(b)
    case EOr(a, b) => ReadOnly(a) && ReadOnly(b)
    case _ => true
  }

  /** A read-only expression changes neither the frames nor the I/O. */
  lemma {:induction false} ReadOnlyUnchanged(fns: Functions, fuel: nat, e: Exp, fr: VFrames, io: Io)
    requires ReadOnly(e)
    ensures EvalExp(fns, fuel, e, fr, io).Done? ==>
              EvalExp(fns, fuel, e, fr, io).frames == fr && EvalExp(fns, fuel, e, fr, io).io == io
  {
    match e
    case EArith(_, a, b) =>
      ReadOnlyUnchanged(fns, fuel, a, fr, io);
      ReadOnlyUnchanged(fns, fuel, b, fr, io);
    case ECmp(_, a, b) =>
      ReadOnlyUnchanged(fns, fuel, a, fr, io);
      ReadOnlyUnchanged(fns, fuel, b, fr, io);
    case EAnd(a, b) =>
      ReadOnlyUnchanged(fns, fuel, a, fr, io);
      ReadOnlyUnchanged(fns, fuel, b, fr, io);
    case EOr(a, b) =>
      ReadOnlyUnchanged(fns, fuel, a, fr, io);
      ReadOnlyUnchanged(fns, fuel, b, fr, io);
    case _ =>
  }

  // ---------------------------------------------------------------------
  // Calls

  /** A callee runs in an environment of its own: a call whose arguments
      are read-only leaves every variable of the caller as it was,
      whatever the callee does. */
  lemma {:induction false} CallLeavesCallerFrames(fns: Functions, fuel: nat, f: string, args: seq<Exp>, fr: VFrames, io: Io)
    requires forall i :: 0 <= i < |args| ==> ReadOnly(args[i])
    ensures EvalExp(fns, fuel, EApp(f, args), fr, io).Done? ==> EvalExp(fns, fuel, EApp(f, args), fr, io).frames == fr
  {
    ReadOnlyArgs(fns, fuel, args, fr, io);
  }

  lemma {:induction false} ReadOnlyArgs(fns: Functions, fuel: nat, es: seq<Exp>, fr: VFrames, io: Io)
    requires forall i :: 0 <= i < |es| ==> ReadOnly(es[i])
    decreases |es|
    ensures EvalArgs(fns, fuel, es, fr, io).Done? ==>
              EvalArgs(fns, fuel, es, fr, io).frames == fr && EvalArgs(fns, fuel, es, fr, io).io == io
  {
    if es != [] {
      ReadOnlyUnchanged(fns, fuel, es[0], fr, io);
      ReadOnlyArgs(fns, fuel, es[1..], fr, io);
    }
  }

  /** Parameters are bound by position: with distinct parameter names,
      the i-th of them holds the i-th argument value. */
  lemma {:induction false} BindParamsPositional(m: map<string, Option<Value>>, params: seq<Arg>, vals: seq<Option<Value>>, i: int)
    requires |vals| <= |params|
    requires forall i, j :: 0 <= i < j < |params| ==> params[i].id != params[j].id
    requires 0 <= i < |vals|
    decreases |vals|
    ensures params[i].id in BindParams(m, params, vals)
    ensures BindParams(m, params, vals)[params[i].id] == vals[i]
  {
    var m1 := m[params[0].id := vals[0]];
    if i > 0 {
      BindParamsPositional(m1, params[1..], vals[1..], i - 1);
    } else {
      BindParamsKeeps(m1, params[1..], vals[1..], params[0].id);
    }
  }

  /** A name that is no parameter receiving an argument keeps its binding
      (or its absence). */
  lemma {:induction false} BindParamsKeeps(m: map<string, Option<Value>>, params: seq<Arg>, vals: seq<Option<Value>>, y: string)
    requires |vals| <= |params|
    requires forall i :: 0 <= i < |vals| ==> params[i].id != y
    decreases |vals|
    ensures y in BindParams(m, params, vals) <==> y in m
    ensures y in m ==> BindParams(m, params, vals)[y] == m[y]
  {
    if vals != [] {
      assert params[0].id != y;
      BindParamsKeeps(m[params[0].id := vals[0]], params[1..], vals[1..], y);
    }
  }

  /** Parameters without an argument are left unbound, so reading one
      is an uninitialised read. */
  lemma MissingArgumentUnbound(params: seq<Arg>, vals: seq<Option<Value>>, k: int)
    requires |vals| <= k < |params|
    requires forall i, j :: 0 <= i < j < |params| ==> params[i].id != params[j].id
    ensures params[k].id !in BindParams(map[], params, vals)
  {
    BindParamsKeeps(map[], params, vals, params[k].id);
  }

  /** A user function receiving more arguments than it has parameters
      fails; the builtins ignore extra arguments. */
  lemma TooManyArgumentsRule(fns: Functions, fuel: nat, f: string, vals: seq<Option<Value>>, io: Io)
    requires f !in {"printInt", "printDouble", "readInt", "readDouble"}
    requires f in fns && |vals| > |fns[f].args|
    ensures Call(fns, fuel, f, vals, io) == Err(TooManyArguments(f))
  {
  }

  /** `printInt` appends its first argument, or `null`, to the output. */
  lemma PrintIntRule(fns: Functions, fuel: nat, v: Option<Value>, rest: seq<Option<Value>>, io: Io)
    requires v.None? || v.value.IntV?
    ensures Call(fns, fuel, "printInt", [v] + rest, io) ==
            Ok((None, io.(output := io.output + [if v.None? then None else Some(v.value.n)])))
  {
  }

  /** `readInt` consumes one line of input and yields its number; no
      line left, or one that is not a number, is an error. */
  lemma ReadIntRule(fns: Functions, fuel: nat, vals: seq<Option<Value>>, io: Io)
    ensures io.input == [] ==> Call(fns, fuel, "readInt", vals, io) == Err(InputExhausted)
    ensures io.input != [] && io.input[0].None? ==> Call(fns, fuel, "readInt", vals, io) == Err(InputParseFailure)
    ensures io.input != [] && io.input[0].Some? ==>
      Call(fns, fuel, "readInt", vals, io) == Ok((Some(IntV(io.input[0].value)), Io(io.input[1..], io.output)))
  {
  }

  // ---------------------------------------------------------------------
  // Small programs

  /** Reading a variable declared without a value is a runtime error,
      whatever the type, the other names declared with it, and the frames
      around it. */
  lemma UninitializedReadFails(fns: Functions, fuel: nat, t: Type, ids: seq<string>, x: string, fr: VFrames, io: Io)
    requires |fr| > 0 && x in ids
    ensures ExecStms(fns, fuel, [SDecls(t, ids), SExp(EId(x))], fr, io) == Crash(UninitializedRead(x))
  {
    var fr1 := DeclareUnset(fr, ids);
    DeclareUnsetValues(fr, ids);
    var i :| 0 <= i < |ids| && ids[i] == x;
    assert LookupVal(fr1, x) == None;
    var ss := [SDecls(t, ids), SExp(EId(x))];
    assert ss[1..] == [SExp(EId(x))] && ss[1..][1..] == [];
    assert ExecStm(fns, fuel, ss[0], fr, io) == Done(None, fr1, io);
    assert ExecStm(fns, fuel, SExp(EId(x)), fr1, io) == Crash(UninitializedRead(x));
  }

  /** `printInt(x++)` with `x` holding 5 prints 5 and leaves 6 in `x`. */
  lemma PrintPostIncrement(fns: Functions, fuel: nat, fr: VFrames, io: Io)
    requires |fr| > 0 && LookupVal(fr, "x") == Some(IntV(5))
    ensures var r := ExecStm(fns, fuel, SExp(EApp("printInt", [EIncr(PostIncr, EId("x"))])), fr, io);
      r.Done? && r.io.output == io.output + [Some(5)] && LookupVal(r.frames, "x") == Some(IntV(6))
  {
    PostfixRule(fns, fuel, PostIncr, "x", 5, fr, io, "x");
    var ri := EvalExp(fns, fuel, EIncr(PostIncr, EId("x")), fr, io);
    assert [EIncr(PostIncr, EId("x"))][1..] == [];
    assert Wrap(5 + 1) == 6;
    assert ri == Done(Some(IntV(5)), ri.frames, io);
    assert EvalArgs(fns, fuel, [], ri.frames, io) == Done([], ri.frames, io);
    var es := [EIncr(PostIncr, EId("x"))];
    assert es[0] == EIncr(PostIncr, EId("x")) && es[1..] == [];
    var ra := EvalArgs(fns, fuel, es, fr, io);
    assert [Some(IntV(5))] + [] == [Some(IntV(5))];
    assert ra == Done([Some(IntV(5))], ri.frames, io);
    assert Call(fns, fuel, "printInt", [Some(IntV(5))], io) == Ok((None, io.(output := io.output + [Some(5)])));
  }

  // ---------------------------------------------------------------------
  // Fuel is only a bound

  /** More fuel never changes an outcome that did not run out of fuel:
      the bound only cuts runs short, it never alters what they compute. */
  lemma {:induction false} EvalExpFuel(fns: Functions, fuel: nat, fuel2: nat, e: Exp, fr: VFrames, io: Io)
    requires fuel <= fuel2
    decreases fuel, SizeE(e), 2
    ensures EvalExp(fns, fuel, e, fr, io) != Crash(OutOfFuel) ==>
            EvalExp(fns, fuel2, e, fr, io) == EvalExp(fns, fuel, e, fr, io)
  {
    match e
    case EApp(f, args) =>
      EvalArgsFuel(fns, fuel, fuel2, args, fr, io);
      var ra := EvalArgs(fns, fuel, args, fr, io);
      if ra.Done? { CallFuel(fns, fuel, fuel2, f, ra.val, ra.io); }
    case EArith(_, a, b) =>
      EvalExpFuel(fns, fuel, fuel2, a, fr, io);
      var ra := EvalExp(fns, fuel, a, fr, io);
      if ra.Done? { EvalExpFuel(fns, fuel, fuel2, b, ra.frames, ra.io); }
    case EAss(a, b) =>
      if a.EId? { EvalExpFuel(fns, fuel, fuel2, b, fr, io); }
    case ECmp(_, a, b) =>
      EvalExpFuel(fns, fuel, fuel2, a, fr, io);
      var ra := EvalExp(fns, fuel, a, fr, io);
      if ra.Done? { EvalExpFuel(fns, fuel, fuel2, b, ra.frames, ra.io); }
    case EAnd(a, b) =>
      EvalExpFuel(fns, fuel, fuel2, a, fr, io);
      var ra := EvalExp(fns, fuel, a, fr, io);
      if ra.Done? { EvalExpFuel(fns, fuel, fuel2, b, ra.frames, ra.io); }
    case EOr(a, b) =>
      EvalExpFuel(fns, fuel, fuel2, a, fr, io);
      var ra := EvalExp(fns, fuel, a, fr, io);
      if ra.Done? { EvalExpFuel(fns, fuel, fuel2, b, ra.frames, ra.io); }
    case _ =>
  }

  lemma {:induction false} EvalArgsFuel(fns: Functions, fuel: nat, fuel2: nat, es: seq<Exp>, fr: VFrames, io: Io)
    requires fuel <= fuel2
    decreases fuel, SizeEs(es), 2
    ensures EvalArgs(fns, fuel, es, fr, io) != Crash(OutOfFuel) ==>
            EvalArgs(fns, fuel2, es, fr, io) == EvalArgs(fns, fuel, es, fr, io)
  {
    if es != [] {
      EvalExpFuel(fns, fuel, fuel2, es[0], fr, io);
      var r0 := EvalExp(fns, fuel, es[0], fr, io);
      if r0.Done? { EvalArgsFuel(fns, fuel, fuel2, es[1..], r0.frames, r0.io); }
    }
  }

  lemma {:induction false} CallFuel(fns: Functions, fuel: nat, fuel2: nat, f: string, vals: seq<Option<Value>>, io: Io)
    requires fuel <= fuel2
    decreases fuel, 0, 0
    ensures Call(fns, fuel, f, vals, io) != Err(OutOfFuel) ==>
            Call(fns, fuel2, f, vals, io) == Call(fns, fuel, f, vals, io)
  {
    if f !in {"printInt", "printDouble", "readInt", "readDouble"} && f in fns && |vals| <= |fns[f].args| && fuel > 0 {
      RunFunctionFuel(fns, fuel - 1, fuel2 - 1, fns[f], vals, io);
    }
  }

  lemma {:induction false} RunFunctionFuel(fns: Functions, fuel: nat, fuel2: nat, d: Def, vals: seq<Option<Value>>, io: Io)
    requires fuel <= fuel2
    requires |vals| <= |d.args|
    decreases fuel, SizeSs(d.body) + 1, 0
    ensures RunFunction(fns, fuel, d, vals, io) != Err(OutOfFuel) ==>
            RunFunction(fns, fuel2, d, vals, io) == RunFunction(fns, fuel, d, vals, io)
  {
    ExecStmsFuel(fns, fuel, fuel2, d.body, [BindParams(map[], d.args, vals)], io);
  }

  lemma {:induction false} ExecStmFuel(fns: Functions, fuel: nat, fuel2: nat, s: Stm, fr: VFrames, io: Io)
    requires fuel <= fuel2
    requires |fr| > 0
    decreases fuel, SizeS(s), 1
    ensures ExecStm(fns, fuel, s, fr, io) != Crash(OutOfFuel) ==>
            ExecStm(fns, fuel2, s, fr, io) == ExecStm(fns, fuel, s, fr, io)
  {
    match s
    case SExp(e) => EvalExpFuel(fns, fuel, fuel2, e, fr, io);
    case SDecls(_, _) =>
    case SInit(_, _, e) => EvalExpFuel(fns, fuel, fuel2, e, fr, io);
    case SReturn(e) => EvalExpFuel(fns, fuel, fuel2, e, fr, io);
    case SWhile(c, body) => ExecWhileFuel(fns, fuel, fuel2, c, body, Push(fr), io);
    case SBlock(ss) => ExecStmsFuel(fns, fuel, fuel2, ss, Push(fr), io);
    case SIfElse(c, s1, s2) =>
      EvalExpFuel(fns, fuel, fuel2, c, Push(fr), io);
      var rc := EvalExp(fns, fuel, c, Push(fr), io);
      if rc.Done? && (rc.val == Some(BoolV(true)) || rc.val == Some(BoolV(false))) {
        ExecStmFuel(fns, fuel, fuel2, if rc.val == Some(BoolV(true)) then s1 else s2, rc.frames, rc.io);
      }
  }

  lemma {:induction false} ExecWhileFuel(fns: Functions, fuel: nat, fuel2: nat, c: Exp, body: Stm, fr: VFrames, io: Io)
    requires fuel <= fuel2
    requires |fr| > 0
    decreases fuel, SizeE(c) + SizeS(body) + 1, 1
    ensures ExecWhile(fns, fuel, c, body, fr, io) != Crash(OutOfFuel) ==>
            ExecWhile(fns, fuel2, c, body, fr, io) == ExecWhile(fns, fuel, c, body, fr, io)
  {
    EvalExpFuel(fns, fuel, fuel2, c, fr, io);
    var rc := EvalExp(fns, fuel, c, fr, io);
    if rc.Crash? {
      assert ExecWhile(fns, fuel, c, body, fr, io) == rc;
    } else if rc.val == Some(BoolV(false)) {
      assert ExecWhile(fns, fuel, c, body, fr, io) == Done(None, rc.frames, rc.io);
    } else if rc.val != Some(BoolV(true)) {
      assert ExecWhile(fns, fuel, c, body, fr, io) == Crash(BadCast);
    } else {
      var rb := ExecStm(fns, fuel, body, rc.frames, rc.io);
      assert ExecWhile(fns, fuel, c, body, fr, io) == Reenter(fns, fuel, c, body, rb);
      ExecStmFuel(fns, fuel, fuel2, body, rc.frames, rc.io);
      ReenterFuel(fns, fuel, fuel2, c, body, rb);
      if rb != Crash(OutOfFuel) {
        assert ExecWhile(fns, fuel2, c, body, fr, io) == Reenter(fns, fuel2, c, body, rb);
      }
    }
  }

  lemma {:induction false} ReenterFuel(fns: Functions, fuel: nat, fuel2: nat, c: Exp, body: Stm, rb: Res<Option<Value>>)
    requires fuel <= fuel2
    requires rb.Done? ==> |rb.frames| > 0
    decreases fuel, SizeE(c) + SizeS(body) + 1, 0
    ensures Reenter(fns, fuel, c, body, rb) != Crash(OutOfFuel) ==>
            Reenter(fns, fuel2, c, body, rb) == Reenter(fns, fuel, c, body, rb)
  {
    if rb.Done? && rb.val.None? && fuel > 0 {
      ExecWhileFuel(fns, fuel - 1, fuel2 - 1, c, body, rb.frames, rb.io);
      ReenterContinues(fns, fuel, fuel2, c, body, rb);
    } else {
      ReenterStops(fns, fuel, fuel2, c, body, rb);
    }
  }

  /** The continuing case of `ReenterFuel`: the loop test comes round
      again with one unit of fuel less on both sides. */
  lemma ReenterContinues(fns: Functions, fuel: nat, fuel2: nat, c: Exp, body: Stm, rb: Res<Option<Value>>)
    requires fuel <= fuel2 && rb.Done? && rb.val.None? && fuel > 0 && |rb.frames| > 0
    requires ExecWhile(fns, fuel - 1, c, body, rb.frames, rb.io) != Crash(OutOfFuel) ==>
             ExecWhile(fns, fuel2 - 1, c, body, rb.frames, rb.io) == ExecWhile(fns, fuel - 1, c, body, rb.frames, rb.io)
    ensures Reenter(fns, fuel, c, body, rb) != Crash(OutOfFuel) ==>
            Reenter(fns, fuel2, c, body, rb) == Reenter(fns, fuel, c, body, rb)
  {
  }

  /** The stopping cases of `ReenterFuel`: a crash, a `return`, or no
      fuel left. */
  lemma ReenterStops(fns: Functions, fuel: nat, fuel2: nat, c: Exp, body: Stm, rb: Res<Option<Value>>)
    requires fuel <= fuel2 && (rb.Done? ==> |rb.frames| > 0)
    requires !(rb.Done? && rb.val.None? && fuel > 0)
    ensures Reenter(fns, fuel, c, body, rb) != Crash(OutOfFuel) ==>
            Reenter(fns, fuel2, c, body, rb) == Reenter(fns, fuel, c, body, rb)
  {
  }

  lemma {:induction false} ExecStmsFuel(fns: Functions, fuel: nat, fuel2: nat, ss: seq<Stm>, fr: VFrames, io: Io)
    requires fuel <= fuel2
    requires |fr| > 0
    decreases fuel, SizeSs(ss), 1
    ensures ExecStms(fns, fuel, ss, fr, io) != Crash(OutOfFuel) ==>
            ExecStms(fns, fuel2, ss, fr, io) == ExecStms(fns, fuel, ss, fr, io)
  {
    if ss != [] {
      ExecStmFuel(fns, fuel, fuel2, ss[0], fr, io);
      var r0 := ExecStm(fns, fuel, ss[0], fr, io);
      if r0.Done? && r0.val.None? { ExecStmsFuel(fns, fuel, fuel2, ss[1..], r0.frames, r0.io); }
    }
  }

  /** A whole program's output does not depend on the fuel once it
      suffices. */
  lemma RunProgramFuel(p: Program, fuel: nat, fuel2: nat, input: seq<Option<int32>>)
    requires fuel <= fuel2
    requires RunProgram(p, fuel, input) != Err(OutOfFuel)
    ensures RunProgram(p, fuel2, input) == RunProgram(p, fuel, input)
  {
    var fns := FunctionTable(p);
    if "main" in fns {
      RunFunctionFuel(fns, fuel, fuel2, fns["main"], [], Io(input, []));
    }
  }
}
