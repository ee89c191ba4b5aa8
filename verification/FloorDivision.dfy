/** Floor division and remainder, from C division that truncates. */
module FloorDivision {
  import opened Words

  const INT64_MIN: int := -0x8000_0000_0000_0000
  const INT64_MAX: int := 0x7FFF_FFFF_FFFF_FFFF

  /** C division: the quotient is truncated toward zero. */
  function TruncDiv(a: int, b: int): int
    requires b != 0
  {
    if (a >= 0) == (b > 0) then Abs(a) / Abs(b) else -(Abs(a) / Abs(b))
  }

  function TruncMod(a: int, b: int): int
    requires b != 0
  {
    a - TruncDiv(a, b) * b
  }

  function Abs(a: int): nat { if a < 0 then -a else a }

  /** The sign bit of `a ^ b` is set exactly when the signs differ. */
  predicate XorNegative(a: int64, b: int64)
  {
    (a < 0) != (b < 0)
  }

  /** zb_div_floor */
  function DivFloor(a: int64, b: int64): int
    requires b != 0
  {
    var q := TruncDiv(a, b);
    if TruncMod(a, b) != 0 && XorNegative(a, b) then q - 1 else q
  }

  /** zb_mod_floor */
  function ModFloor(a: int64, b: int64): int
    requires b != 0
  {
    var r := TruncMod(a, b);
    if r != 0 && XorNegative(a, b) then r + b else r
  }

  /** The expression the Go emitter writes for the remainder; the one for the quotient is
      the formula of DivFloor. */
  function EmittedMod(a: int64, b: int64): int
    requires b != 0
  {
    a - b * DivFloor(a, b)
  }

  lemma TruncParts(a: int, b: int)
    requires b != 0
    ensures Abs(TruncMod(a, b)) < Abs(b)
    ensures TruncMod(a, b) != 0 ==> (TruncMod(a, b) < 0 <==> a < 0)
  {
    var x, y := Abs(a), Abs(b);
    var q, r := x / y, x % y;
    assert x == q * y + r;
    Signs(q, y);
    if a >= 0 { assert TruncMod(a, b) == r; } else { assert TruncMod(a, b) == -(r as int); }
  }

  lemma Signs(q: int, y: int)
    ensures (-q) * y == -(q * y) && q * (-y) == -(q * y) && (-q) * (-y) == q * y
  {}

  /** Floor division: the remainder is zero or has the divisor's sign, and is smaller than
      the divisor; both fit 64 bits except for the one overflowing quotient. */
  lemma FloorDivision(a: int64, b: int64)
    requires b != 0 && !(a == INT64_MIN && b == -1)
    ensures a == b * DivFloor(a, b) + ModFloor(a, b)
    ensures ModFloor(a, b) == 0 || (ModFloor(a, b) < 0 <==> b < 0)
    ensures Abs(ModFloor(a, b)) < Abs(b)
    ensures INT64_MIN <= DivFloor(a, b) <= INT64_MAX && INT64_MIN <= ModFloor(a, b) <= INT64_MAX
    ensures ModFloor(a, b) == EmittedMod(a, b)
  {
    hide DivFloor, ModFloor;
    FloorLaw(a, b);
    QuotientBound(a, b);
  }

  lemma FloorLaw(a: int64, b: int64)
    requires b != 0
    ensures a == b * DivFloor(a, b) + ModFloor(a, b)
    ensures ModFloor(a, b) == 0 || (ModFloor(a, b) < 0 <==> b < 0)
    ensures Abs(ModFloor(a, b)) < Abs(b)
  {
    hide TruncDiv, TruncMod;
    TruncParts(a, b);
    TruncLaw(a, b);
    Shift(b, TruncDiv(a, b));
  }

  lemma TruncLaw(a: int, b: int)
    requires b != 0
    ensures a == b * TruncDiv(a, b) + TruncMod(a, b)
  {}

  lemma Shift(b: int, q: int)
    ensures b * (q - 1) == b * q - b
  {}

  lemma QuotientBound(a: int64, b: int64)
    requires b != 0 && !(a == INT64_MIN && b == -1)
    ensures INT64_MIN <= DivFloor(a, b) <= INT64_MAX
  {
    var x, y := Abs(a), Abs(b);
    DivideBound(x, y);
    if y == 1 {
      assert TruncDiv(a, b) == if (a >= 0) == (b > 0) then x else -(x as int);
      assert TruncMod(a, b) == 0;
    }
  }

  /** These conditions leave no other quotient and remainder. */
  lemma FloorUnique(a: int, b: int, q: int, r: int, q': int, r': int)
    requires b != 0 && a == b * q + r && a == b * q' + r'
    requires (r == 0 || (r < 0 <==> b < 0)) && Abs(r) < Abs(b)
    requires (r' == 0 || (r' < 0 <==> b < 0)) && Abs(r') < Abs(b)
    ensures q == q' && r == r'
  {
    assert b * (q - q') == r' - r;
    MulAtLeast(b, q - q');
  }

  lemma MulAtLeast(b: int, k: int)
    ensures k != 0 ==> Abs(b * k) >= Abs(b)
  {
    var x, y := Abs(b), Abs(k);
    Signs(b, k);
    assert Abs(b * k) == x * y;
    if k != 0 { Grows(x, 1, y); }
  }
}
