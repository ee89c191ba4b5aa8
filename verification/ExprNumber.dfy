/** Integer literals: four ways to write a number, and underscores anywhere between the digits. */
module ExprNumber {
  import opened ExprAst
  import opened ExprGrammar
  import opened ExprRoundTrip

  const LOWER_DIGITS := "0123456789abcdef"
  const UPPER_DIGITS := "0123456789ABCDEF"

  /** The text spells `n` in a base, least significant digit last. */
  predicate Spells(text: string, base: nat, n: nat)
    requires 2 <= base <= 16
  {
    if text == "" then n == 0
    else
      var front, c := text[..|text| - 1], text[|text| - 1];
      if c == '_' then Spells(front, base, n)
      else (c == LOWER_DIGITS[n % base] || c == UPPER_DIGITS[n % base]) && Spells(front, base, n / base)
  }

  predicate HasDigit(text: string)
  {
    exists i :: 0 <= i < |text| && text[i] != '_'
  }

  lemma DigitsValued(d: nat)
    requires d < 16
    ensures DigitValue(LOWER_DIGITS[d]) == d && DigitValue(UPPER_DIGITS[d]) == d
    ensures LOWER_DIGITS[d] != '_' && UPPER_DIGITS[d] != '_'
    ensures d < 10 ==> IsDigit(LOWER_DIGITS[d]) && UPPER_DIGITS[d] == LOWER_DIGITS[d]
  {}

  lemma {:induction false} UnderscoresConcat(a: string, b: string)
    ensures WithoutUnderscores(a + b) == WithoutUnderscores(a) + WithoutUnderscores(b)
  {
    if a == "" {
      assert a + b == b;
    } else {
      assert (a + b)[1..] == a[1..] + b;
      UnderscoresConcat(a[1..], b);
    }
  }

  lemma UnderscoresSnoc(front: string, c: char)
    ensures WithoutUnderscores(front + [c]) == WithoutUnderscores(front) + if c == '_' then "" else [c]
  {
    UnderscoresConcat(front, [c]);
    assert [c][1..] == "";
  }

  /** One more digit. */
  lemma NumeralSnoc(digits: string, base: nat, n: nat, c: char)
    requires 2 <= base <= 16 && DigitValue(c) == n % base
    requires if digits == "" then n / base == 0 else Numeral(digits, base) == Ok(n / base, "")
    ensures Numeral(digits + [c], base) == Ok(n, "")
  {
    hide DigitValue;
    var s := digits + [c];
    assert s[..|s| - 1] == digits;
    Parts(n, base);
    if digits == "" { assert s == [c]; }
  }

  lemma Parts(n: nat, base: nat)
    requires base > 0
    ensures n == n / base * base + n % base && n % base < base
  {}

  lemma {:induction false} SpelledNumeral(text: string, base: nat, n: nat)
    requires 2 <= base <= 16 && Spells(text, base, n)
    ensures WithoutUnderscores(text) != "" ==> Numeral(WithoutUnderscores(text), base) == Ok(n, "")
    ensures WithoutUnderscores(text) == "" ==> n == 0 && !HasDigit(text)
  {
    hide DigitValue, Numeral, WithoutUnderscores;
    if text == "" {
      NothingSpelled();
    } else {
      var front, c := text[..|text| - 1], text[|text| - 1];
      assert text == front + [c];
      UnderscoresSnoc(front, c);
      if c == '_' {
        assert WithoutUnderscores(text) == WithoutUnderscores(front);
        SpelledNumeral(front, base, n);
      } else {
        DigitsValued(n % base);
        SpelledNumeral(front, base, n / base);
        NumeralSnoc(WithoutUnderscores(front), base, n, c);
      }
    }
  }

  lemma NothingSpelled()
    ensures WithoutUnderscores("") == ""
  {}

  lemma {:induction false} SpelledChars(text: string, base: nat, n: nat)
    requires 2 <= base <= 16 && Spells(text, base, n)
    ensures forall i :: 0 <= i < |text| ==> text[i] == '_' || DigitValue(text[i]) < base
    ensures base <= 10 ==> forall i :: 0 <= i < |text| ==> IsNumber(text[i])
  {
    hide DigitValue;
    if text != "" {
      var front, c := text[..|text| - 1], text[|text| - 1];
      if c == '_' {
        SpelledChars(front, base, n);
      } else {
        DigitsValued(n % base);
        SpelledChars(front, base, n / base);
      }
      assert forall i :: 0 <= i < |front| ==> text[i] == front[i];
    }
  }

  // ---- Literals as whole texts -----------------------------------------------

  predicate Marks(mark: char, base: nat)
  {
    (base == 16 && mark in {'x', 'X'}) || (base == 8 && mark in {'o', 'O'}) || (base == 2 && mark in {'b', 'B'})
  }

  /** A text that starts with a digit is a number, and nothing may be left of it. */
  lemma NumberAlone(s: string)
    requires s != "" && IsDigit(s[0])
    ensures ParseExpr(s) ==
            match Number(s)
            case Ok(n, rest) => if rest == "" then Expression(n) else ParseExpr(s)
            case Err(Syntax) => Failure
            case Err(Unmodelled) => Outside
  {
    hide Number, Primary, Tail, Parse;
    DigitStarts(s);
    ParseOfPrimary(s);
    match Number(s) {
      case Ok(n, rest) => if rest == "" { TailStops(0, n, false, ""); }
      case Err(_) =>
    }
  }

  lemma ParseOfPrimary(s: string)
    requires s != "" && !IsWhitespace(s[0])
    ensures Parse(0, s) == match Primary(s) case Ok(n, rest) => Tail(0, n, false, rest) case Err(e) => Err(e)
  {
    hide Primary, Tail;
    SkipNothing(s);
  }

  predicate AllBelow(text: string, base: nat)
  {
    forall i :: 0 <= i < |text| ==> text[i] == '_' || DigitValue(text[i]) < base
  }

  function Valued(text: string, base: nat): Result<Node>
  {
    match Numeral(WithoutUnderscores(text), base)
    case Ok(v, _) => Ok(Int(v), "")
    case Err(e) => Err(e)
  }

  lemma NumberBehindPrefix(mark: char, base: nat, text: string)
    requires Marks(mark, base) && AllBelow(text, base)
    ensures Number("0" + [mark] + text) == Valued(text, base)
  {
    hide Span, Numeral, WithoutUnderscores, DigitValue;
    var rest := [mark] + text;
    var s := "0" + [mark] + text;
    assert s == "0" + rest && rest[1..] == text && text + "" == text;
    SpanOver(IsNumber, "0", rest);
    assert s[..1] == "0" && s[1..] == rest;
    if base == 16 {
      SpanOver(IsHexOrUnderscore, text, "");
    } else if base == 8 {
      SpanOver(IsOctalOrUnderscore, text, "");
    } else {
      SpanOver(IsBinaryOrUnderscore, text, "");
    }
    assert text[..|text|] == text && text[|text|..] == "";
  }

  lemma {:induction false} OnlyUnderscores(text: string)
    ensures WithoutUnderscores(text) == "" <==> !HasDigit(text)
  {
    if text != "" {
      OnlyUnderscores(text[1..]);
      if HasDigit(text[1..]) {
        var i :| 0 <= i < |text[1..]| && text[1..][i] != '_';
        assert text[i + 1] != '_';
      }
      if text[0] == '_' && HasDigit(text) {
        var i :| 0 <= i < |text| && text[i] != '_';
        assert text[1..][i - 1] != '_';
      }
    }
  }

  /** Behind a prefix, a text of digits of the base has the number it spells; a text without
      digits is an error. */
  lemma PrefixedNumber(mark: char, base: nat, text: string, n: nat)
    requires Marks(mark, base) && Spells(text, base, n)
    ensures ParseExpr("0" + [mark] + text) == if HasDigit(text) then Expression(Int(n)) else Failure
  {
    hide Number, ParseExpr, WithoutUnderscores, Spells;
    SpelledChars(text, base, n);
    SpelledNumeral(text, base, n);
    OnlyUnderscores(text);
    NumberBehindPrefix(mark, base, text);
    NumberAlone("0" + [mark] + text);
  }

  lemma NumberWithoutPrefix(s: string)
    requires s != "" && IsDigit(s[0]) && forall i :: 0 <= i < |s| ==> IsNumber(s[i])
    ensures Number(s) == Valued(s, if |WithoutUnderscores(s)| > 1 && s[0] == '0' then 8 else 10)
  {
    hide Span, Numeral, Prefixed;
    SpanOver(IsNumber, s, "");
    assert s + "" == s && s[..|s|] == s && s[|s|..] == "";
  }

  /** Without a prefix a leading zero means octal. */
  lemma OctalNumber(text: string, n: nat)
    requires Spells(text, 8, n)
    ensures ParseExpr("0" + text) == Expression(Int(n))
  {
    hide Number, ParseExpr, WithoutUnderscores, Spells, Numeral;
    var s := "0" + text;
    SpelledChars(text, 8, n);
    SpelledNumeral(text, 8, n);
    UnderscoresConcat("0", text);
    ZeroAlone();
    LeadingZero(WithoutUnderscores(text), n);
    assert "0" + "" == "0";
    NumberWithoutPrefix(s);
    NumberAlone(s);
  }

  lemma ZeroAlone()
    ensures WithoutUnderscores("0") == "0" && Numeral("0", 10) == Ok(0, "")
  {}

  lemma {:induction false} LeadingZero(digits: string, n: nat)
    requires digits != "" ==> Numeral(digits, 8) == Ok(n, "")
    ensures digits != "" ==> Numeral("0" + digits, 8) == Ok(n, "")
  {
    if digits != "" {
      var s := "0" + digits;
      if |digits| == 1 {
        assert s[..1] == "0";
      } else {
        assert s[..|s| - 1] == "0" + digits[..|digits| - 1];
        LeadingZero(digits[..|digits| - 1], Numeral(digits[..|digits| - 1], 8).value);
      }
    }
  }

  /** A digit 8 or 9 behind a leading zero is an error. */
  lemma NoOctalNumber(text: string, i: nat)
    requires i < |text| && text[i] in {'8', '9'} && forall k :: 0 <= k < |text| ==> IsNumber(text[k])
    ensures ParseExpr("0" + text) == Failure
  {
    hide Number, ParseExpr, WithoutUnderscores, Numeral;
    var s := "0" + text;
    UnderscoresConcat("0", text);
    ZeroAlone();
    StaysIn(text, i);
    var k :| 0 <= k < |WithoutUnderscores(text)| && WithoutUnderscores(text)[k] == text[i];
    BadDigit(WithoutUnderscores(s), k + 1);
    NumberWithoutPrefix(s);
    NumberAlone(s);
  }

  lemma {:induction false} StaysIn(text: string, i: nat)
    requires i < |text| && text[i] != '_'
    ensures text[i] in WithoutUnderscores(text)
  {
    if i > 0 { StaysIn(text[1..], i - 1); }
  }

  lemma {:induction false} BadDigit(digits: string, k: nat)
    requires k < |digits| && digits[k] in {'8', '9'}
    ensures Numeral(digits, 8) == Err(Syntax)
  {
    if k < |digits| - 1 { BadDigit(digits[..|digits| - 1], k); }
  }

  /** Otherwise the digits are decimal. */
  lemma DecimalNumber(text: string, n: nat)
    requires Spells(text, 10, n) && text != "" && '1' <= text[0] <= '9'
    ensures ParseExpr(text) == Expression(Int(n))
  {
    hide Number, ParseExpr, WithoutUnderscores, Spells, Numeral;
    SpelledChars(text, 10, n);
    SpelledNumeral(text, 10, n);
    assert HasDigit(text);
    NumberWithoutPrefix(text);
    NumberAlone(text);
  }
}
