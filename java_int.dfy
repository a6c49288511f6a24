/** Java `int` arithmetic: 32-bit two's complement with wrap-around, and
    division that truncates toward zero. */
module JavaInt {
  import opened Syntax

  const Modulus: int := 0x1_0000_0000

  /** The 32-bit value congruent to `x`: what a Java `int` operation
      keeps of its exact result. */
  function Wrap(x: int): (r: int32)
    ensures (r as int - x) % Modulus == 0
    ensures -0x8000_0000 <= x < 0x8000_0000 ==> r as int == x
  {
    ((x + 0x8000_0000) % Modulus - 0x8000_0000) as int32
  }

  /** Quotient rounded toward zero (Java `/`), unlike Dafny's Euclidean `/`. */
  function TruncDiv(a: int, b: int): (q: int)
    requires b != 0
    ensures var rem := a - q * b;
            (if rem < 0 then -rem else rem) < (if b < 0 then -b else b) &&
            (rem == 0 || (rem < 0 <==> a < 0))
  {
    var n := if a < 0 then -a else a;
    var d := if b < 0 then -b else b;
    var q0 := n / d;
    assert n == q0 * d + n % d;
    if (a < 0) == (b < 0) then
      (assert a - q0 * b == (if a < 0 then -(n % d) else n % d); q0)
    else
      (assert a - (-q0) * b == (if a < 0 then -(n % d) else n % d); -q0)
  }

  /** `int * int`, `int + int`, `int - int` and `int / int` in Java. */
  function Mul(a: int32, b: int32): int32 { Wrap(a as int * b as int) }
  function Add(a: int32, b: int32): int32 { Wrap(a as int + b as int) }
  function Sub(a: int32, b: int32): int32 { Wrap(a as int - b as int) }
  function Quot(a: int32, b: int32): int32
    requires b != 0
  {
    Wrap(TruncDiv(a as int, b as int))
  }

  /** The one overflowing division: the least int divided by -1 is itself. */
  lemma QuotOverflow()
    ensures Quot(-0x8000_0000, -1) == -0x8000_0000
  {
    assert TruncDiv(-0x8000_0000, -1) == 0x8000_0000;
  }

  /** Incrementing the largest int gives the least one. */
  lemma AddOverflow()
    ensures Add(0x7fff_ffff, 1) == -0x8000_0000
  {
  }
}
