/** Unsigned machine words: the bytes and 64-bit accumulators of the C runtime.
    Words are numbers with an explicit range, so that every shift that can lose
    bits does so visibly. */
module Words {

  type byte = x: int | 0 <= x < 256
  type word = x: int | 0 <= x < 0x1_0000_0000_0000_0000
  type int64 = x: int | -0x8000_0000_0000_0000 <= x < 0x8000_0000_0000_0000

  const ALL_ONES: word := 0xFFFF_FFFF_FFFF_FFFF

  /** The first number that `size_t` cannot hold. */
  const SIZE_LIMIT: nat := 0x1_0000_0000_0000_0000

  /** The largest size of an object in memory: PTRDIFF_MAX. */
  const MAX_OBJECT: nat := 0x7FFF_FFFF_FFFF_FFFF

  /** A bound on buffers, well inside MAX_OBJECT. */
  const MAX_BUFFER: nat := 0x2000_0000_0000_0000

  /** The sum of two sizes as `size_t` computes it. */
  function SizeAdd(a: word, b: word): word
  {
    if a + b < SIZE_LIMIT then a + b else a + b - SIZE_LIMIT
  }

  function Pow2(k: nat): (r: nat)
    ensures r > 0
  {
    if k == 0 then 1 else 2 * Pow2(k - 1)
  }

  /** `x` moved up by `k` positions, without any width limit. */
  function Up(x: nat, k: nat): nat
  {
    if k == 0 then x else 2 * Up(x, k - 1)
  }

  /** The bits of `x` from position `k` up. */
  function High(x: nat, k: nat): (q: nat)
    ensures q <= x
  {
    if k == 0 then x else High(x / 2, k - 1)
  }

  /** The `k` low bits of `x`. */
  function Low(x: nat, k: nat): (r: nat)
    ensures r < Pow2(k) && r <= x
  {
    if k == 0 then 0 else 2 * Low(x / 2, k - 1) + x % 2
  }

  /** `x << k` on a 64-bit word: the bits pushed past the top are lost. */
  function Shl(x: word, k: nat): word
  {
    Pow2Values();
    Low(Up(x, k), 64)
  }

  /** `x >> k` */
  function Shr(x: word, k: nat): word
  {
    High(x, k)
  }

  /** `x & y`, bit by bit */
  function And(x: nat, y: nat): (r: nat)
    ensures r <= x && r <= y
  {
    if x == 0 || y == 0 then 0
    else 2 * And(x / 2, y / 2) + (if x % 2 == 1 && y % 2 == 1 then 1 else 0)
  }

  /** `x | y`, bit by bit */
  function Or(x: nat, y: nat): nat
    decreases x + y
  {
    if x == 0 then y else if y == 0 then x
    else 2 * Or(x / 2, y / 2) + (if x % 2 == 1 || y % 2 == 1 then 1 else 0)
  }

  /** The mask of the low `n` bits, built as the runtime builds it. */
  function Mask(n: nat): word
    requires n <= 64
  {
    if n == 64 then ALL_ONES else
      ShlOne(n);
      Shl(1, n) - 1
  }

  lemma Pow2Values()
    ensures Pow2(0) == 1 && Pow2(7) == 128 && Pow2(8) == 256
    ensures Pow2(16) == 0x1_0000 && Pow2(32) == 0x1_0000_0000
    ensures Pow2(64) == 0x1_0000_0000_0000_0000
  {
    Pow2Step16(0);
    Pow2Step16(16);
    Pow2Step16(32);
    Pow2Step16(48);
  }

  lemma Pow2Step16(k: nat)
    ensures Pow2(k + 7) == 128 * Pow2(k) && Pow2(k + 8) == 256 * Pow2(k)
    ensures Pow2(k + 16) == 0x1_0000 * Pow2(k)
  {
    assert Pow2(k + 4) == 16 * Pow2(k) by { assert Pow2(k + 2) == 4 * Pow2(k); }
    assert Pow2(k + 6) == 4 * Pow2(k + 4);
    assert Pow2(k + 8) == 4 * Pow2(k + 6);
    assert Pow2(k + 10) == 4 * Pow2(k + 8);
    assert Pow2(k + 12) == 4 * Pow2(k + 10);
    assert Pow2(k + 14) == 4 * Pow2(k + 12);
  }

  lemma {:induction false} Pow2Mono(a: nat, b: nat)
    requires a <= b
    ensures Pow2(a) <= Pow2(b)
    decreases b
  {
    if a < b { Pow2Mono(a, b - 1); }
  }

  lemma {:induction false} UpAdd(x: nat, a: nat, b: nat)
    ensures Up(Up(x, a), b) == Up(x, a + b)
  {
    if b > 0 { UpAdd(x, a, b - 1); }
  }

  lemma {:induction false} UpOne(k: nat)
    ensures Up(1, k) == Pow2(k)
  {
    if k > 0 { UpOne(k - 1); }
  }

  /** Moving `n` bits up by `k` leaves room for any `k` bits below them. */
  lemma {:induction false} UpBound(x: nat, n: nat, k: nat)
    requires x < Pow2(n)
    ensures Up(x, k) + Pow2(k) <= Pow2(n + k)
  {
    if k > 0 { UpBound(x, n, k - 1); }
  }

  /** A number is its high part moved up, plus its low part; ... */
  lemma {:induction false} SplitJoin(x: nat, k: nat)
    ensures x == Up(High(x, k), k) + Low(x, k)
  {
    if k > 0 { SplitJoin(x / 2, k - 1); }
  }

  /** ... and the two parts are determined by that. */
  lemma {:induction false} JoinSplit(hi: nat, lo: nat, k: nat)
    requires lo < Pow2(k)
    ensures High(Up(hi, k) + lo, k) == hi && Low(Up(hi, k) + lo, k) == lo
  {
    if k > 0 {
      JoinSplit(hi, lo / 2, k - 1);
      assert (Up(hi, k) + lo) / 2 == Up(hi, k - 1) + lo / 2;
    }
  }

  lemma {:induction false} LowSmall(x: nat, k: nat)
    requires x < Pow2(k)
    ensures Low(x, k) == x && High(x, k) == 0
  {
    if k > 0 { LowSmall(x / 2, k - 1); }
  }

  lemma {:induction false} LowLow(x: nat, m: nat, n: nat)
    requires m <= n
    ensures Low(Low(x, n), m) == Low(x, m)
  {
    hide Pow2;
    if m > 0 {
      LowLow(x / 2, m - 1, n - 1);
      var y := Low(x, n);
      assert y / 2 == Low(x / 2, n - 1) && y % 2 == x % 2;
    }
  }

  lemma {:induction false} HighBound(x: nat, n: nat, k: nat)
    requires x < Pow2(n + k)
    ensures High(x, k) < Pow2(n)
  {
    if k > 0 { HighBound(x / 2, n, k - 1); }
  }

  lemma ShlOne(n: nat)
    requires n < 64
    ensures Shl(1, n) == Pow2(n) && Pow2(n) <= Pow2(63)
  {
    UpOne(n);
    Pow2Mono(n, 63);
    LowSmall(Pow2(n), 64);
  }

  /** Shifting left loses nothing while the result fits 64 bits. */
  lemma ShlExact(x: word, n: nat, k: nat)
    requires x < Pow2(n) && n + k <= 64
    ensures Shl(x, k) == Up(x, k)
  {
    UpBound(x, n, k);
    Pow2Mono(n + k, 64);
    LowSmall(Up(x, k), 64);
  }

  lemma {:induction false} LowOfUp(x: nat, k: nat, m: nat)
    ensures Low(Up(x, k), m + k) == Up(Low(x, m), k)
  {
    if k > 0 { LowOfUp(x, k - 1, m); }
  }

  /** In general the bits that no longer fit are dropped. */
  lemma ShlTruncates(x: word, k: nat)
    requires k <= 64
    ensures Shl(x, k) == Up(Low(x, 64 - k), k)
  {
    LowOfUp(x, k, 64 - k);
  }

  lemma {:induction false} AndMaskNat(x: nat, n: nat)
    ensures And(x, Pow2(n) - 1) == Low(x, n)
    decreases n
  {
    if n > 0 && x > 0 {
      var m: nat := Pow2(n) - 1;
      AndMaskNat(x / 2, n - 1);
      assert m / 2 == Pow2(n - 1) - 1 && m % 2 == 1;
    }
  }

  /** Masking with the mask of `n` bits keeps the low `n` bits. */
  lemma AndMask(x: word, n: nat)
    requires n <= 64
    ensures And(x, Mask(n)) == Low(x, n)
  {
    Pow2Values();
    AndMaskNat(x, n);
    if n < 64 { ShlOne(n); }
  }

  /** `|` of numbers whose bits do not overlap is their sum. */
  lemma {:induction false} OrDisjoint(hi: nat, lo: nat, k: nat)
    requires lo < Pow2(k)
    ensures Or(Up(hi, k), lo) == Up(hi, k) + lo
    ensures Or(lo, Up(hi, k)) == Up(hi, k) + lo
    decreases k
  {
    if k > 0 && Up(hi, k) > 0 && lo > 0 {
      OrDisjoint(hi, lo / 2, k - 1);
    }
  }

  /** `Up` is multiplication by a power of two. */
  lemma {:induction false} UpIsTimes(x: nat, k: nat)
    ensures Up(x, k) == x * Pow2(k)
  {
    if k > 0 {
      UpIsTimes(x, k - 1);
      TimesTwo(x, Pow2(k - 1));
    }
  }

  /** The low and the high part of a number are remainder and quotient. */
  lemma {:induction false} LowIsMod(x: nat, k: nat)
    ensures Low(x, k) == x % Pow2(k) && High(x, k) == x / Pow2(k)
  {
    if k > 0 {
      LowIsMod(x / 2, k - 1);
      DivideTwice(x, Pow2(k - 1));
    }
  }

  /** The shifts of 64-bit words as arithmetic. */
  lemma ShiftsAreArithmetic(x: word, k: nat)
    ensures Shl(x, k) == x * Pow2(k) % Pow2(64) && Shr(x, k) == x / Pow2(k)
  {
    UpIsTimes(x, k);
    LowIsMod(Up(x, k), 64);
    LowIsMod(x, k);
  }

  lemma DivideTwice(x: nat, p: nat)
    requires p > 0
    ensures x / (2 * p) == x / 2 / p && x % (2 * p) == 2 * (x / 2 % p) + x % 2
  {
    var q, r := x / 2 / p, x / 2 % p;
    assert x / 2 == q * p + r;
    assert x == q * (2 * p) + (2 * r + x % 2) by { TimesTwo(q, p); }
    DivisionUnique(x, 2 * p, q, 2 * r + x % 2);
  }

  lemma TimesTwo(q: int, p: int)
    ensures q * (2 * p) == 2 * (q * p)
  {}

  lemma DivisionUnique(x: int, d: int, q: int, r: int)
    requires 0 <= r < d && x == q * d + r
    ensures x / d == q && x % d == r
  {
    var q', r' := x / d, x % d;
    assert x == q' * d + r' && 0 <= r' < d;
    assert (q - q') * d == r' - r;
    if q > q' { Grows(d, 1, q - q'); }
    if q < q' { Grows(d, 1, q' - q); }
  }

  lemma DivideBound(x: nat, y: nat)
    requires y > 0
    ensures 0 <= x / y <= x && (y == 1 ==> x / y == x) && (y > 1 ==> 2 * (x / y) <= x)
  {
    var q, r := x / y, x % y;
    assert x == q * y + r;
    Grows(q, 1, y);
    if y > 1 { Grows(q, 2, y); }
  }

  lemma Grows(q: nat, m: nat, n: nat)
    requires m <= n
    ensures q * m <= q * n
  {}
}
