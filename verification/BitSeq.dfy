/** Bit sequences: the reference view of everything the bit codec does.
    A field of `n` bits is spelled in reading order, most significant bit first
    for big-endian bit order and least significant bit first for little-endian. */
module BitSeq {
  import opened Words

  type bits = seq<bool>

  /** The `n` low bits of `v` in reading order (`le`: least significant first). */
  function Spell(v: nat, n: nat, le: bool): (s: bits)
    ensures |s| == n
  {
    if n == 0 then []
    else if le then [v % 2 == 1] + Spell(v / 2, n - 1, le)
    else Spell(v / 2, n - 1, le) + [v % 2 == 1]
  }

  /** The number a bit sequence spells. */
  function Value(s: bits, le: bool): nat
  {
    if s == [] then 0
    else if le then (if s[0] then 1 else 0) + 2 * Value(s[1..], le)
    else 2 * Value(s[..|s| - 1], le) + (if s[|s| - 1] then 1 else 0)
  }

  /** All bits of a byte string, in reading order. */
  function Expand(bs: seq<byte>, le: bool): (s: bits)
    ensures |s| == 8 * |bs|
  {
    if bs == [] then [] else Spell(bs[0], 8, le) + Expand(bs[1..], le)
  }

  /** The byte string with the given bits; a last partial byte is left out. */
  function Pack(s: bits, le: bool): (bs: seq<byte>)
    ensures |bs| == |s| / 8
  {
    if |s| < 8 then [] else
      ValueBound(s[..8], le);
      Pow2Values();
      [Value(s[..8], le)] + Pack(s[8..], le)
  }

  lemma {:induction false} ValueBound(s: bits, le: bool)
    ensures Value(s, le) < Pow2(|s|)
  {
    if s != [] {
      ValueBound(if le then s[1..] else s[..|s| - 1], le);
    }
  }

  /** Spelling and reading a number are inverse, up to the width. */
  lemma {:induction false} ValueOfSpell(v: nat, n: nat, le: bool)
    ensures Value(Spell(v, n, le), le) == Low(v, n)
  {
    if n > 0 {
      ValueOfSpell(v / 2, n - 1, le);
      var s, t := Spell(v, n, le), Spell(v / 2, n - 1, le);
      if le { assert s[1..] == t; } else { assert s[..n - 1] == t; }
    }
  }

  lemma {:induction false} SpellOfValue(s: bits, le: bool)
    ensures Spell(Value(s, le), |s|, le) == s
  {
    if s != [] {
      SpellOfValue(if le then s[1..] else s[..|s| - 1], le);
    }
  }

  /** A number that fits its width is spelled exactly. */
  lemma ValueOfSpellExact(v: nat, n: nat, le: bool)
    requires v < Pow2(n)
    ensures Value(Spell(v, n, le), le) == v
  {
    ValueOfSpell(v, n, le);
    LowSmall(v, n);
  }

  lemma {:induction false} SpellLow(v: nat, n: nat, le: bool)
    ensures Spell(Low(v, n), n, le) == Spell(v, n, le)
  {
    ValueOfSpell(v, n, le);
    SpellOfValue(Spell(v, n, le), le);
  }

  /** Bit `i` in reading order: the `i`-th from the bottom or from the top. */
  lemma {:induction false} SpelledBit(v: nat, n: nat, le: bool, i: nat)
    requires i < n
    ensures Spell(v, n, le)[i] <==> v / Pow2(if le then i else n - 1 - i) % 2 == 1
  {
    hide Pow2;
    var k := if le then i else n - 1 - i;
    Pow2First(k);
    if k > 0 {
      SpelledBit(v / 2, n - 1, le, if le then i - 1 else i);
      DivideTwice(v, Pow2(k - 1));
    }
  }

  lemma Pow2First(k: nat)
    ensures Pow2(0) == 1 && (k > 0 ==> Pow2(k) == 2 * Pow2(k - 1))
  {}

  lemma SpellStep(v: nat, n: nat, le: bool)
    requires n > 0
    ensures Spell(v, n, le) ==
            if le then [v % 2 == 1] + Spell(v / 2, n - 1, le) else Spell(v / 2, n - 1, le) + [v % 2 == 1]
  {}

  /** Big-endian: the high part is read before the low part. */
  lemma {:induction false} SpellJoinBe(hi: nat, a: nat, lo: nat, b: nat)
    requires lo < Pow2(b)
    ensures Spell(Up(hi, b) + lo, a + b, false) == Spell(hi, a, false) + Spell(lo, b, false)
    decreases b
  {
    if b > 0 {
      var v := Up(hi, b) + lo;
      assert v / 2 == Up(hi, b - 1) + lo / 2 && v % 2 == lo % 2;
      SpellJoinBe(hi, a, lo / 2, b - 1);
      SpellStep(v, a + b, false);
      SpellStep(lo, b, false);
    }
  }

  /** Little-endian: the low part is read before the high part. */
  lemma {:induction false} SpellJoinLe(lo: nat, a: nat, hi: nat, b: nat)
    requires lo < Pow2(a)
    ensures Spell(Up(hi, a) + lo, a + b, true) == Spell(lo, a, true) + Spell(hi, b, true)
    decreases a
  {
    if a > 0 {
      var v := Up(hi, a) + lo;
      assert v / 2 == Up(hi, a - 1) + lo / 2 && v % 2 == lo % 2;
      SpellJoinLe(lo / 2, a - 1, hi, b);
      SpellStep(v, a + b, true);
      SpellStep(lo, a, true);
    }
  }

  /** A spelling cut in two: high and low part, in the order of reading. */
  lemma SpellSplit(v: nat, a: nat, b: nat)
    ensures Spell(v, a + b, false) == Spell(High(v, b), a, false) + Spell(Low(v, b), b, false)
    ensures Spell(v, a + b, true) == Spell(Low(v, a), a, true) + Spell(High(v, a), b, true)
  {
    SplitJoin(v, b);
    SplitJoin(v, a);
    SpellJoinBe(High(v, b), a, Low(v, b), b);
    SpellJoinLe(Low(v, a), a, High(v, a), b);
  }

  /** Reading two adjacent fields agrees with reading one of the joint width. */
  lemma {:induction false} ValueJoinBe(s: bits, t: bits)
    ensures Value(s + t, false) == Up(Value(s, false), |t|) + Value(t, false)
    decreases |t|
  {
    if t == [] {
      assert s + t == s;
    } else {
      ValueJoinBe(s, t[..|t| - 1]);
      assert (s + t)[..|s + t| - 1] == s + t[..|t| - 1];
    }
  }

  lemma {:induction false} ValueJoinLe(s: bits, t: bits)
    ensures Value(s + t, true) == Up(Value(t, true), |s|) + Value(s, true)
    decreases |s|
  {
    if s == [] {
      assert s + t == t;
    } else {
      ValueJoinLe(s[1..], t);
      assert (s + t)[1..] == s[1..] + t;
    }
  }

  lemma ExpandCons(x: byte, rest: seq<byte>, le: bool)
    ensures Expand([x] + rest, le) == Spell(x, 8, le) + Expand(rest, le) && Expand([], le) == []
  {
    hide Spell;
    assert ([x] + rest)[1..] == rest;
  }

  lemma {:induction false} ExpandConcat(a: seq<byte>, b: seq<byte>, le: bool)
    ensures Expand(a + b, le) == Expand(a, le) + Expand(b, le)
  {
    hide Spell, Expand;
    if a == [] {
      ExpandCons(0, [], le);
      assert a + b == b;
    } else {
      ExpandConcat(a[1..], b, le);
      ExpandCons(a[0], a[1..], le);
      ExpandCons(a[0], a[1..] + b, le);
      assert a == [a[0]] + a[1..] && a + b == [a[0]] + (a[1..] + b);
    }
  }

  lemma ExpandOne(b: byte, le: bool)
    ensures Expand([b], le) == Spell(b, 8, le)
  {
    assert [b][1..] == [];
  }

  lemma {:induction false} ExpandOfPack(s: bits, le: bool)
    requires |s| % 8 == 0
    ensures Expand(Pack(s, le), le) == s
  {
    if s != [] {
      ExpandOfPack(s[8..], le);
      SpellOfValue(s[..8], le);
      assert Pack(s, le)[1..] == Pack(s[8..], le);
      assert s == s[..8] + s[8..];
    }
  }

  lemma {:induction false} PackOfExpand(bs: seq<byte>, le: bool)
    ensures Pack(Expand(bs, le), le) == bs
  {
    if bs != [] {
      PackOfExpand(bs[1..], le);
      SpellByte(bs[0], le);
      var s := Expand(bs, le);
      assert s[..8] == Spell(bs[0], 8, le);
      assert s[8..] == Expand(bs[1..], le);
    }
  }

  lemma SpellByte(b: byte, le: bool)
    ensures Value(Spell(b, 8, le), le) == b
  {
    Pow2Values();
    ValueOfSpellExact(b, 8, le);
  }
}
