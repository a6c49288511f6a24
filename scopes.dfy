/** The nested-scope environment shared by every pass: a stack of
    name-to-value frames, innermost last. All operations are pure
    functions on the frame sequence; the `Env` classes of the type
    checker and the interpreter are proved against them. */
module Scopes {
  import opened Wrappers

  type Frames<T> = seq<map<string, T>>

  /** True when `k` is the innermost frame of `fs` that binds `x`. */
  ghost predicate InnermostAt<T>(fs: Frames<T>, x: string, k: int) {
    0 <= k < |fs| && x in fs[k] && forall j :: k < j < |fs| ==> x !in fs[j]
  }

  /** Index of the innermost frame holding `x`, scanning from the last
      frame towards the first (the `ListIterator` walk of every `Env`). */
  function Innermost<T>(fs: Frames<T>, x: string): (k: Option<nat>)
    ensures k.Some? ==> InnermostAt(fs, x, k.value)
    ensures k.None? ==> forall j :: 0 <= j < |fs| ==> x !in fs[j]
    decreases |fs|
  {
    if |fs| == 0 then None
    else if x in fs[|fs| - 1] then Some(|fs| - 1)
    else Innermost(fs[..|fs| - 1], x)
  }

  /** The innermost frame holding a name is unique. */
  lemma InnermostUnique<T>(fs: Frames<T>, x: string, k: int)
    requires InnermostAt(fs, x, k)
    ensures Innermost(fs, x) == Some(k)
  {
  }

  /** First match wins: the value bound to `x` in the innermost frame
      that binds it, `None` if no frame does. */
  function Lookup<T>(fs: Frames<T>, x: string): Option<T> {
    match Innermost(fs, x)
    case Some(k) => Some(fs[k][x])
    case None => None
  }

  /** True when the current (innermost) frame already binds `x`. */
  predicate InCurrent<T>(fs: Frames<T>, x: string) {
    |fs| > 0 && x in fs[|fs| - 1]
  }

  /** Binds `x` in the innermost frame only. */
  function Declare<T>(fs: Frames<T>, x: string, v: T): Frames<T>
    requires |fs| > 0
  {
    fs[|fs| - 1 := fs[|fs| - 1][x := v]]
  }

  /** Rebinds `x` in the nearest frame that holds it; no frame holding
      `x` leaves the stack as it is. */
  function Rebind<T>(fs: Frames<T>, x: string, v: T): Frames<T> {
    match Innermost(fs, x)
    case Some(k) => fs[k := fs[k][x := v]]
    case None => fs
  }

  /** Entering a block: one fresh empty frame. */
  function Push<T>(fs: Frames<T>): Frames<T> {
    fs + [map[]]
  }

  /** Leaving a block: drop the innermost frame (`pollLast`, which does
      nothing to an empty list). */
  function Pop<T>(fs: Frames<T>): Frames<T> {
    if |fs| == 0 then fs else fs[..|fs| - 1]
  }

  /** Two stacks with the same depth whose corresponding frames bind the
      same names: what an update in place preserves. */
  ghost predicate SameShape<T>(fs: Frames<T>, gs: Frames<T>) {
    |fs| == |gs| && forall j :: 0 <= j < |fs| ==> fs[j].Keys == gs[j].Keys
  }

  // ---------------------------------------------------------------------
  // Properties of the operations

  /** Lookup finds a binding exactly when some frame holds the name, and
      then it returns the value of the innermost such frame. */
  lemma LookupInnermost<T>(fs: Frames<T>, x: string)
    ensures Lookup(fs, x).Some? <==> exists j :: 0 <= j < |fs| && x in fs[j]
    ensures forall k :: InnermostAt(fs, x, k) ==> Lookup(fs, x) == Some(fs[k][x])
  {
    forall k | InnermostAt(fs, x, k) ensures Lookup(fs, x) == Some(fs[k][x]) {
      InnermostUnique(fs, x, k);
    }
  }

  /** Declaring makes the new binding visible and hides nothing else. */
  lemma LookupDeclare<T>(fs: Frames<T>, x: string, v: T, y: string)
    requires |fs| > 0
    ensures Lookup(Declare(fs, x, v), y) == if y == x then Some(v) else Lookup(fs, y)
  {
    var gs := Declare(fs, x, v);
    var n := |fs| - 1;
    if y == x {
      InnermostUnique(gs, y, n);
    } else {
      match Innermost(fs, y)
      case Some(k) => InnermostUnique(gs, y, k);
      case None =>
    }
  }

  /** Declaring touches only the innermost frame, and keeps the depth. */
  lemma DeclareOnlyInnermost<T>(fs: Frames<T>, x: string, v: T)
    requires |fs| > 0
    ensures |Declare(fs, x, v)| == |fs|
    ensures Declare(fs, x, v)[..|fs| - 1] == fs[..|fs| - 1]
    ensures Declare(fs, x, v)[|fs| - 1] == fs[|fs| - 1][x := v]
  {
  }

  /** Rebinding changes the value seen for `x` (when some frame holds it)
      and nothing seen for any other name. */
  lemma LookupRebind<T>(fs: Frames<T>, x: string, v: T, y: string)
    ensures Lookup(Rebind(fs, x, v), y) ==
            if y == x && Lookup(fs, x).Some? then Some(v) else Lookup(fs, y)
  {
    var gs := Rebind(fs, x, v);
    match Innermost(fs, x)
    case None =>
    case Some(k) =>
      if y == x {
        InnermostUnique(gs, y, k);
      } else {
        match Innermost(fs, y)
        case Some(k') => InnermostUnique(gs, y, k');
        case None =>
      }
  }

  /** Rebinding overwrites only the nearest frame holding the name, leaves
      every other frame equal, and keeps the shape of the stack. */
  lemma RebindOnlyNearest<T>(fs: Frames<T>, x: string, v: T)
    ensures SameShape(fs, Rebind(fs, x, v))
    ensures Innermost(fs, x).None? ==> Rebind(fs, x, v) == fs
    ensures forall k :: InnermostAt(fs, x, k) ==>
              Rebind(fs, x, v)[k] == fs[k][x := v] &&
              forall j :: 0 <= j < |fs| && j != k ==> Rebind(fs, x, v)[j] == fs[j]
  {
    forall k | InnermostAt(fs, x, k)
      ensures Rebind(fs, x, v)[k] == fs[k][x := v]
    {
      InnermostUnique(fs, x, k);
    }
  }

  /** A fresh frame hides nothing, and leaving it restores the stack. */
  lemma PushPop<T>(fs: Frames<T>, x: string)
    ensures Lookup(Push(fs), x) == Lookup(fs, x)
    ensures Pop(Push(fs)) == fs
    ensures |Push(fs)| == |fs| + 1
  {
    match Innermost(fs, x)
    case Some(k) => InnermostUnique(Push(fs), x, k);
    case None =>
  }

  /** Shadowing: inside a new block a name bound further out may be
      declared again, lookup sees the inner binding, and leaving the
      block brings the outer binding back. */
  lemma Shadowing<T>(fs: Frames<T>, x: string, v: T)
    ensures !InCurrent(Push(fs), x)
    ensures Lookup(Declare(Push(fs), x, v), x) == Some(v)
    ensures Pop(Declare(Push(fs), x, v)) == fs
    ensures Lookup(Pop(Declare(Push(fs), x, v)), x) == Lookup(fs, x)
  {
    LookupDeclare(Push(fs), x, v, x);
    assert Declare(Push(fs), x, v)[..|fs|] == fs;
  }

  /** Declaring the names `xs` one after another into a frame binding
      `m` meets no clash: none of them is in `m`, and none repeats. */
  predicate AllClear<T>(m: map<string, T>, xs: seq<string>) {
    forall i :: 0 <= i < |xs| ==> xs[i] !in m && xs[i] !in xs[..i]
  }

  /** The names clash-free after the first one is declared. */
  lemma ClearStep<T>(m: map<string, T>, xs: seq<string>, v: T)
    requires |xs| > 0
    ensures AllClear(m, xs) <==> xs[0] !in m && AllClear(m[xs[0] := v], xs[1..])
    ensures AllClear(m, xs) ==> xs[0] !in xs[1..]
    ensures forall y :: y in xs <==> y == xs[0] || y in xs[1..]
  {
    forall i | 0 <= i < |xs| - 1
      ensures xs[..i + 1] == [xs[0]] + xs[1..][..i]
    {
    }
    assert xs == [xs[0]] + xs[1..];
    if AllClear(m, xs) {
      forall j | 0 <= j < |xs| - 1
        ensures xs[1..][j] != xs[0]
      {
        assert xs[j + 1] !in xs[..j + 1];
      }
    }
  }

  /** Names declared into a frame holding only `x` are clash-free exactly
      when none is `x` and none repeats. */
  lemma ClearAfterOne<T>(x: string, v: T, xs: seq<string>)
    ensures AllClear(map[x := v], xs) <==> x !in xs && AllClear<T>(map[], xs)
  {
    if AllClear(map[x := v], xs) {
      forall i | 0 <= i < |xs| ensures xs[i] != x {
        assert xs[i] !in map[x := v];
      }
    }
    if x !in xs && AllClear<T>(map[], xs) {
      forall i | 0 <= i < |xs| ensures xs[i] !in map[x := v] {
        assert xs[i] in xs;
      }
    }
  }

  /** Declaring `xs[0]` as `vs[0]` and then the rest as the rest of `vs`
      binds all of `xs` in the innermost frame and hides nothing else: the
      inductive step of every declaration list. */
  lemma DeclareEachStep<T>(fs: Frames<T>, xs: seq<string>, vs: seq<T>, gs: Frames<T>)
    requires |fs| > 0 && |xs| == |vs| > 0 && AllClear(fs[|fs| - 1], xs)
    requires |gs| == |fs| && gs[..|fs| - 1] == fs[..|fs| - 1]
    requires forall y :: y in gs[|fs| - 1] <==> y in Declare(fs, xs[0], vs[0])[|fs| - 1] || y in xs[1..]
    requires forall i :: 0 <= i < |xs| - 1 ==> Lookup(gs, xs[1..][i]) == Some(vs[1..][i])
    requires forall y :: y !in xs[1..] ==> Lookup(gs, y) == Lookup(Declare(fs, xs[0], vs[0]), y)
    ensures forall y :: y in gs[|fs| - 1] <==> y in fs[|fs| - 1] || y in xs
    ensures forall i :: 0 <= i < |xs| ==> Lookup(gs, xs[i]) == Some(vs[i])
    ensures forall y :: y !in xs ==> Lookup(gs, y) == Lookup(fs, y)
  {
    ClearStep(fs[|fs| - 1], xs, vs[0]);
    var m1 := Declare(fs, xs[0], vs[0])[|fs| - 1];
    assert m1 == fs[|fs| - 1][xs[0] := vs[0]];
    forall y
      ensures y in gs[|fs| - 1] <==> y in fs[|fs| - 1] || y in xs
    {
      assert y in m1 <==> y in fs[|fs| - 1] || y == xs[0];
      assert y in gs[|fs| - 1] <==> y in m1 || y in xs[1..];
      assert y in xs <==> y == xs[0] || y in xs[1..];
    }
    LookupDeclare(fs, xs[0], vs[0], xs[0]);
    forall i | 0 <= i < |xs|
      ensures Lookup(gs, xs[i]) == Some(vs[i])
    {
      if i > 0 {
        assert xs[i] == xs[1..][i - 1] && vs[i] == vs[1..][i - 1];
      }
    }
    forall y | y !in xs
      ensures Lookup(gs, y) == Lookup(fs, y)
    {
      LookupDeclare(fs, xs[0], vs[0], y);
    }
  }

  /** Leaving a block with no block open does nothing. */
  lemma PopEmpty<T>(fs: Frames<T>)
    requires |fs| == 0
    ensures Pop(fs) == fs
  {
  }
}
