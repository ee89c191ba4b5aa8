/** Printing integers in a base. */
module IntText {
  import opened Words

  // ---- zb_int_to_s_base ---------------------------------------------------

  function DigitChar(d: nat): char
    requires d < 36
  {
    if d < 10 then '0' + d as char else 'a' + (d - 10) as char
  }

  /** The value of a digit, or 36 for any other character. */
  function DigitOf(c: char): nat
  {
    if '0' <= c <= '9' then (c - '0') as nat else if 'a' <= c <= 'z' then (c - 'a') as nat + 10 else 36
  }

  /** Reading digits most significant first. */
  function Fold(s: string, base: nat): nat
  {
    if s == "" then 0 else Fold(s[..|s| - 1], base) * base + DigitOf(s[|s| - 1])
  }

  ghost predicate DigitsIn(s: string, base: nat)
  {
    forall i :: 0 <= i < |s| ==> DigitOf(s[i]) < base
  }

  /** The number a printed integer stands for. */
  function Reading(s: string, base: nat): int
  {
    if s != "" && s[0] == '-' then -(Fold(s[1..], base) as int) else Fold(s, base)
  }

  const DIGITS := "0123456789abcdefghijklmnopqrstuvwxyz"

  /** The digits are the decimal ones and the small letters, in order. */
  lemma DigitTable(d: nat)
    requires d < 36
    ensures DigitChar(d) == DIGITS[d] && DigitOf(DIGITS[d]) == d
  {}

  lemma DigitRoundTrip(d: nat)
    requires d < 36
    ensures DigitOf(DigitChar(d)) == d && DigitChar(d) != '-'
  {}

  /** Prefixing the next higher digit of `u`: the unprinted part shrinks by a factor. */
  lemma {:induction false} FoldPrepend(d: nat, s: string, base: nat)
    requires d < 36
    ensures Fold([DigitChar(d)] + s, base) == d * Power(base, |s|) + Fold(s, base)
  {
    DigitRoundTrip(d);
    var t := [DigitChar(d)] + s;
    if s == "" {
      assert t[..0] == "";
    } else {
      var s' := s[..|s| - 1];
      assert t[..|t| - 1] == [DigitChar(d)] + s';
      FoldPrepend(d, s', base);
      var p := Power(base, |s'|);
      Distribute(d, p, Fold(s', base), base);
    }
  }

  function Power(base: nat, k: nat): nat
  {
    if k == 0 then 1 else Power(base, k - 1) * base
  }

  lemma Distribute(d: nat, p: nat, f: nat, base: nat)
    ensures (d * p + f) * base == d * (p * base) + f * base
  {}

  /** Taking the last digit off `u` and putting it in front of the printed ones. */
  lemma DigitStep(u: nat, q: nat, d: nat, s: string, base: nat)
    requires d < base <= 36 && u == q * base + d
    ensures q * Power(base, |s| + 1) + Fold([DigitChar(d)] + s, base) == u * Power(base, |s|) + Fold(s, base)
  {
    hide Fold;
    FoldPrepend(d, s, base);
    Rejoin(q, base, d, Power(base, |s|));
  }

  lemma Rejoin(q: nat, base: nat, d: nat, p: nat)
    ensures q * (p * base) + d * p == (q * base + d) * p
  {}

  lemma QuotientBound(u: nat, q: nat, d: nat, base: nat, k: nat)
    requires base >= 2 && u == q * base + d && u < Pow2(k)
    ensures k > 0 ==> q < Pow2(k - 1)
    ensures k == 0 ==> u == 0
  {
    assert q * 2 <= q * base;
  }

  /** `u / base` and `u % base` of the digit loop. */
  function Quotient(u: nat, base: nat): (q: nat)
    requires base > 0
    ensures q <= u && (base > 1 && u > 0 ==> q < u)
  {
    DivideBound(u, base);
    u / base
  }

  function LastDigit(u: nat, base: nat): (d: nat)
    requires base > 0
    ensures d < base && u == Quotient(u, base) * base + d
  {
    u % base
  }

  /** What has been printed and what is left of the number add up. */
  ghost predicate Printing(u: nat, s: string, base: nat, u0: nat)
  {
    && u * Power(base, |s|) + Fold(s, base) == u0
    && DigitsIn(s, base)
    && (u0 == 0 ==> s == "0")
    && (u0 != 0 && u == 0 ==> s != "" && s[0] != '0')
  }

  lemma PrintingStarts(u: nat, base: nat)
    requires base >= 2
    ensures Printing(u, if u == 0 then "0" else "", base, u)
  {
    assert Power(base, 0) == 1;
    assert "0"[..0] == "";
  }

  lemma PrintingStep(u: nat, s: string, base: nat, u0: nat)
    requires 2 <= base <= 36 && u > 0 && u0 > 0 && Printing(u, s, base, u0)
    ensures Printing(Quotient(u, base), [DigitChar(LastDigit(u, base))] + s, base, u0)
  {
    hide Fold, Power, Quotient, LastDigit;
    var q, d := Quotient(u, base), LastDigit(u, base);
    DigitStep(u, q, d, s, base);
    DigitRoundTrip(d);
    assert q == 0 ==> d != 0;
  }

  lemma PrintingEnds(s: string, base: nat, u0: nat)
    requires Printing(0, s, base, u0)
    ensures Fold(s, base) == u0 && DigitsIn(s, base) && s != "" && (s[0] == '0' ==> s == "0" && u0 == 0)
    ensures s[0] != '-' || base > 36
  {
    assert DigitOf('-') == 36;
  }

  /** zb_int_to_s_base: the digits are written into a 68-byte buffer from its end. The index
      never leaves the buffer, there is no spare leading zero, and reading the text gives
      the number back, for every 64-bit integer including the least. */
  method IntToText(v: int64, base0: int) returns (text: string)
    ensures var base := if 2 <= base0 <= 36 then base0 else 10;
            && Reading(text, base) == v
            && 1 <= |text| <= 65
            && (v < 0 <==> text[0] == '-')
            && var digits := if v < 0 then text[1..] else text;
               DigitsIn(digits, base) && |digits| > 0 && (digits[0] == '0' ==> digits == "0" && v == 0)
  {
    hide Pow2, Fold, Power, Printing, DigitsIn, Quotient, LastDigit;
    var base: nat := if base0 < 2 || base0 > 36 then 10 else base0;
    var tmp := new char[68](_ => ' ');
    var neg := v < 0;
    var u: word := if neg then -(v + 1) + 1 else v;
    var p := 68;
    ghost var u0 := u;
    if u == 0 {
      p := p - 1;
      tmp[p] := '0';
    }
    Pow2Values();
    PrintingStarts(u0, base);
    ghost var printed := if u == 0 then "0" else "";
    assert printed == tmp[p..];
    while u != 0
      invariant 4 <= p <= 68 && u <= u0 && printed == tmp[p..]
      invariant u != 0 ==> u < Pow2(p - 4)
      invariant Printing(u, printed, base, u0)
      decreases u
    {
      var d := LastDigit(u, base);
      QuotientBound(u, Quotient(u, base), d, base, p - 4);
      PrintingStep(u, printed, base, u0);
      p := p - 1;
      tmp[p] := DigitChar(d);
      u := Quotient(u, base);
      assert tmp[p..] == [DigitChar(d)] + printed;
      printed := tmp[p..];
    }
    PrintingEnds(printed, base, u0);
    if neg {
      p := p - 1;
      tmp[p] := '-';
      assert tmp[p..] == "-" + printed;
    }
    text := tmp[p..];
    assert neg ==> text[1..] == printed;
  }
}
