/** The parser object: it consumes its remaining text step by step, and agrees with the
    grammar on every input. */
module ExprParser {
  import opened ExprAst
  import opened ExprGrammar
  import opened Options

  /** A panic carries the kind of failure. */
  datatype Parsed<+T> = Done(value: T) | Panic(error: ParseError)

  /** The object ends where the grammar does, with the same value, or fails where it fails. */
  ghost predicate Agrees<T>(spec: Result<T>, r: Parsed<T>, s: string)
  {
    match spec
    case Ok(v, rest) => r == Done(v) && s == rest
    case Err(e) => r == Panic(e)
  }

  lemma ParseStarts(depth: nat, s: string)
    ensures var p := Primary(SkipWhitespace(s));
            Parse(depth, s) == if p.Err? || depth >= PRIMARY_DEPTH then p else Tail(depth, p.value, false, p.rest)
  {
    hide Primary, Tail, SkipWhitespace;
  }

  /** One turn of the operator loop. */
  lemma TailTurns(depth: nat, n: Node, sawCompare: bool, s0: string)
    ensures var t, s := Tail(depth, n, sawCompare, s0), SkipWhitespace(s0);
            if Peek(s) == '\0' then t == Ok(n, s)
            else
              var p := NextPostfix(n, s);
              if p.PostfixError? then t == Err(p.error)
              else if p.Applied? then t == Tail(depth, p.n, sawCompare, p.rest)
              else
                var i := NextInfix(depth, sawCompare, s);
                if i.NoInfix? then t == Ok(n, s)
                else if i.Malformed? then t == Err(Syntax)
                else if i.Operator? then
                  var b := Parse(Level(i.op) + 1, s[i.len..]);
                  t == if b.Err? then b
                       else Tail(depth, Binary(i.op, n, b.value), sawCompare || Level(i.op) == COMPARE_DEPTH, b.rest)
                else
                  var b := Parse(0, s[1..]);
                  if b.Err? then t == b
                  else if Peek(b.rest) != ':' then t == Err(Syntax)
                  else
                    var c := Parse(0, b.rest[1..]);
                    t == if c.Err? then c else Ok(Ternary(n, b.value, c.value), c.rest)
  {
    hide Parse, NextPostfix, NextInfix, SkipWhitespace, Level;
  }

  class Parser {
    var s: string
    var pos: nat

    constructor (src: string)
      ensures s == src && pos == 0
    {
      s, pos := src, 0;
    }

    /** The length of the source: consumed and remaining text together. */
    ghost function Total(): nat
      reads this
    {
      pos + |s|
    }

    method Advance(n: nat)
      requires n <= |s|
      modifies this
      ensures s == old(s)[n..] && Total() == old(Total())
    {
      s := s[n..];
      pos := pos + n;
    }

    method Next() returns (c: char)
      modifies this
      ensures c == Peek(old(s)) && Total() == old(Total())
      ensures s == if old(s) == "" then "" else old(s)[1..]
    {
      if |s| != 0 {
        c := s[0];
        Advance(1);
      } else {
        c := '\0';
      }
    }

    method SkipSpaces()
      modifies this
      ensures s == SkipWhitespace(old(s)) && Total() == old(Total())
    {
      while IsWhitespace(Peek(s))
        invariant Total() == old(Total()) && SkipWhitespace(s) == SkipWhitespace(old(s))
        decreases |s|
      {
        SpanStep(IsWhitespace, s);
        Advance(1);
      }
    }

    method Token(test: char -> bool) returns (token: string)
      modifies this
      ensures var k := Span(test, old(s)); token == old(s)[..k] && s == old(s)[k..]
      ensures Total() == old(Total())
    {
      token := "";
      assert "" + s == s;
      while |s| != 0 && test(s[0])
        invariant Total() == old(Total()) && token + s == old(s)
        invariant |token| + Span(test, s) == Span(test, old(s))
        decreases |s|
      {
        Regroup(token, s);
        token := token + [s[0]];
        Advance(1);
      }
      CutAt(token, s);
    }

    method ConsumeKeyword(keyword: string) returns (found: bool)
      modifies this
      ensures found == StartsWithKeyword(old(s), keyword) && Total() == old(Total())
      ensures s == if found then old(s)[|keyword|..] else old(s)
    {
      if |s| < |keyword| { return false; }
      for i := 0 to |keyword|
        invariant keyword[..i] == s[..i]
      {
        if s[i] != keyword[i] { return false; }
      }
      assert keyword == keyword[..|keyword|] == s[..|keyword|];
      if |s| > |keyword| && IsIdent(s[|keyword|]) { return false; }
      Advance(|keyword|);
      found := true;
    }

    /** The text between angle brackets, after the opening one. */
    method TypeName() returns (r: Parsed<string>)
      modifies this
      ensures Agrees(TypeArgument(old(s)), r, s) && Total() == old(Total())
    {
      var name := Token(InTypeName);
      var c := Next();
      r := if c == '>' then Done(name) else Panic(Syntax);
    }

    method ParseNumber() returns (r: Parsed<Node>)
      modifies this
      ensures Agrees(Number(old(s)), r, s) && Total() == old(Total())
    {
      hide Span, Numeral, WithoutUnderscores;
      var token := Token(IsNumber);
      if token == "0" {
        if Peek(s) in {'x', 'X'} {
          r := ParsePrefixed(IsHexOrUnderscore, 16);
          return;
        }
        if Peek(s) in {'o', 'O'} {
          r := ParsePrefixed(IsOctalOrUnderscore, 8);
          return;
        }
        if Peek(s) in {'b', 'B'} {
          r := ParsePrefixed(IsBinaryOrUnderscore, 2);
          return;
        }
      }
      if Peek(s) == '.' && (IsDigit(Peek2(s)) || Peek2(s) in {'e', 'E'} || !IsIdentStart(Peek2(s))) {
        return Panic(Unmodelled);
      }
      if Peek(s) in {'e', 'E'} { return Panic(Unmodelled); }
      var digits := WithoutUnderscores(token);
      match Numeral(digits, if |digits| > 1 && digits[0] == '0' then 8 else 10) {
        case Ok(v, _) => r := if token == "" then Panic(Syntax) else Done(Int(v));
        case Err(e) => r := Panic(e);
      }
    }

    method ParsePrefixed(test: char -> bool, base: nat) returns (r: Parsed<Node>)
      requires s != ""
      modifies this
      ensures Agrees(Prefixed(old(s), test, base), r, s) && Total() == old(Total())
    {
      Advance(1);
      var token := Token(test);
      match Numeral(WithoutUnderscores(token), base) {
        case Ok(v, _) => r := Done(Int(v));
        case Err(e) => r := Panic(e);
      }
    }

    method ArrayLiteral() returns (r: Parsed<Node>)
      requires s != "" && s[0] == '['
      modifies this
      ensures Agrees(Primary(old(s)), r, s) && Total() == old(Total())
      decreases |s|, 0
    {
      hide Parse, Number, Span, TypeArgument, SkipWhitespace, Tail;
      ghost var s0 := s;
      Advance(1);
      SkipSpaces();
      if Peek(s) == ']' {
        Advance(1);
        return Done(Array([]));
      }
      ghost var s1 := s;
      var first := Expr(0);
      if first.Panic? { return Panic(first.error); }
      var items := [first.value];
      ghost var goal := MoreItems(items, s);
      while true
        invariant Total() == old(Total()) && |s| < |s0| && MoreItems(items, s) == goal
        decreases |s|
      {
        SkipSpaces();
        if Peek(s) == ',' {
          Advance(1);
          SkipSpaces();
          if Peek(s) == ']' {
            Advance(1);
            return Done(Array(items));
          }
          var item := Expr(0);
          if item.Panic? { return Panic(item.error); }
          items := items + [item.value];
        } else if Peek(s) == ']' {
          Advance(1);
          return Done(Array(items));
        } else {
          return Panic(Syntax);
        }
      }
    }

    /** expr */
    method Expr(depth: nat) returns (r: Parsed<Node>)
      modifies this
      ensures Agrees(Parse(depth, old(s)), r, s) && Total() == old(Total())
      decreases |s|, 2
    {
      hide Parse, Primary, Tail, NextPostfix, NextInfix, SkipWhitespace, Level;
      ghost var s0 := s;
      ParseStarts(depth, s);
      SkipSpaces();
      r := PrimaryExpr();
      if r.Panic? || depth >= PRIMARY_DEPTH { return; }
      var n := r.value;
      var sawCompare := false;
      ghost var goal := Tail(depth, n, sawCompare, s);
      while true
        invariant Total() == old(Total()) && |s| < |s0|
        invariant goal == Parse(depth, s0) == Tail(depth, n, sawCompare, s)
        decreases |s|
      {
        TailTurns(depth, n, sawCompare, s);
        SkipSpaces();
        if Peek(s) == '\0' { return Done(n); }
        var post := PostfixOp(n);
        if post.Panic? { return Panic(post.error); }
        if post.value.Some? {
          n := post.value.value;
          continue;
        }
        var op := InfixOp(depth, sawCompare);
        match op {
          case NoInfix => return Done(n);
          case Malformed => return Panic(Syntax);
          case Operator(bop, _) =>
            var b := Expr(Level(bop) + 1);
            if b.Panic? { return Panic(b.error); }
            n := Binary(bop, n, b.value);
            if Level(bop) == COMPARE_DEPTH { sawCompare := true; }
          case Question =>
            var b := Expr(0);
            if b.Panic? { return Panic(b.error); }
            var colon := Next();
            if colon != ':' { return Panic(Syntax); }
            var c := Expr(0);
            if c.Panic? { return Panic(c.error); }
            return Done(Ternary(n, b.value, c.value));
        }
      }
    }

    /** The first switch of expr: a primary expression or a prefix operator. */
    method PrimaryExpr() returns (r: Parsed<Node>)
      modifies this
      ensures Agrees(Primary(old(s)), r, s) && Total() == old(Total())
      decreases |s|, 1
    {
      hide Parse, Number, Span, TypeArgument, SkipWhitespace, Tail, MoreItems;
      var c := Peek(s);
      if s == "" {
        return Panic(Syntax);
      } else if IsIdentStart(c) {
        IdentSpan(s);
        var tok := Token(IsIdent);
        if tok == "f" && Peek(s) in {'"', '\''} {
          return Panic(Unmodelled);
        } else if tok == "not" {
          r := Expr(COMPARE_DEPTH);
          if r.Done? { r := Done(Unary(LogicalNot, r.value)); }
        } else if tok == "true" {
          return Done(Bool(true));
        } else if tok == "false" {
          return Done(Bool(false));
        } else if tok in {"sizeof", "bitsizeof"} && Peek(s) == '<' {
          Advance(1);
          var ty := TypeName();
          if ty.Panic? { return Panic(ty.error); }
          r := Done(if tok == "bitsizeof" then BitSizeof(ty.value) else Sizeof(ty.value));
        } else {
          return Done(Ident(tok));
        }
      } else if IsNumber(c) || (c == '.' && IsDigit(Peek2(s))) {
        r := ParseNumber();
      } else if c == '"' || c == '\'' {
        return Panic(Unmodelled);
      } else if c == '(' {
        Advance(1);
        r := Expr(0);
        if r.Panic? { return; }
        var close := Next();
        if close != ')' { return Panic(Syntax); }
      } else if c == '[' {
        r := ArrayLiteral();
      } else if c == '-' {
        Advance(1);
        r := Expr(MEMBER_DEPTH);
        if r.Done? { r := Done(Unary(Negate, r.value)); }
      } else if c == '+' {
        Advance(1);
        r := Expr(MEMBER_DEPTH);
      } else if c == '~' {
        Advance(1);
        r := Expr(MEMBER_DEPTH);
        if r.Done? { r := Done(Unary(Invert, r.value)); }
      } else {
        return Panic(Syntax);
      }
    }

    /** The second switch of expr: one postfix operator, if one is next. */
    method PostfixOp(n: Node) returns (r: Parsed<Option<Node>>)
      modifies this
      ensures Total() == old(Total())
      ensures match NextPostfix(n, old(s))
              case NoPostfix => r == Done(None) && s == old(s)
              case Applied(n', rest) => r == Done(Some(n')) && s == rest
              case PostfixError(e) => r == Panic(e)
      decreases |s|, 1
    {
      hide Parse, Span, TypeArgument, SkipWhitespace, Args;
      var c := Peek(s);
      if s == "" {
        return Done(None);
      } else if c == ':' && Peek2(s) == ':' {
        Advance(2);
        var ty := Token(IsIdent);
        return Done(Some(Scope(n, ty)));
      } else if c == '.' {
        Advance(1);
        var prop := Token(IsIdent);
        if prop == "as" && Peek(s) == '<' {
          Advance(1);
          var ty := TypeName();
          if ty.Panic? { return Panic(ty.error); }
          return Done(Some(Cast(n, ty.value)));
        }
        return Done(Some(Member(n, prop)));
      } else if c == '(' {
        Advance(1);
        var args := Arguments();
        if args.Panic? { return Panic(args.error); }
        var close := Next();
        if close != ')' { return Panic(Syntax); }
        return Done(Some(Call(n, args.value)));
      } else if c == '[' {
        Advance(1);
        var i := Expr(0);
        if i.Panic? { return Panic(i.error); }
        var close := Next();
        if close != ']' { return Panic(Syntax); }
        return Done(Some(Subscript(n, i.value)));
      }
      return Done(None);
    }

    method Arguments() returns (r: Parsed<seq<Node>>)
      modifies this
      ensures Agrees(Args(old(s)), r, s) && Total() == old(Total())
      decreases |s|, 3
    {
      hide Parse, SkipWhitespace;
      ghost var s0 := s;
      SkipSpaces();
      if Peek(s) == ')' { return Done([]); }
      var first := Expr(0);
      if first.Panic? { return Panic(first.error); }
      var args := [first.value];
      ghost var goal := MoreArgs(args, s);
      while true
        invariant Total() == old(Total()) && |s| < |s0| && MoreArgs(args, s) == goal
        decreases |s|
      {
        SkipSpaces();
        if Peek(s) != ',' { return Done(args); }
        Advance(1);
        SkipSpaces();
        var arg := Expr(0);
        if arg.Panic? { return Panic(arg.error); }
        args := args + [arg.value];
      }
    }

    /** The third switch of expr: the infix operator at this depth, and past it. */
    method InfixOp(depth: nat, sawCompare: bool) returns (i: Infix)
      modifies this
      ensures i == NextInfix(depth, sawCompare, old(s)) && Total() == old(Total())
      ensures i.NoInfix? ==> s == old(s)
      ensures i.Operator? ==> s == old(s)[i.len..]
      ensures i.Question? ==> s == old(s)[1..]
    {
      var c, c2 := Peek(s), Peek2(s);
      if s == "" || depth >= MEMBER_DEPTH { return NoInfix; }
      if c in {'*', '/', '%'} {
        Advance(1);
        return Operator(if c == '*' then Mult else if c == '/' then Div else Mod, 1);
      }
      if depth >= MULT_DEPTH { return NoInfix; }
      if c in {'+', '-'} {
        Advance(1);
        return Operator(if c == '+' then Add else Sub, 1);
      }
      if depth >= ADD_DEPTH { return NoInfix; }
      if (c == '<' && c2 == '<') || (c == '>' && c2 == '>') {
        Advance(2);
        return Operator(if c == '<' then ShiftLeft else ShiftRight, 2);
      }
      if depth >= SHIFT_DEPTH { return NoInfix; }
      if c == '&' {
        Advance(1);
        return Operator(BitAnd, 1);
      }
      if depth >= BIT_AND_DEPTH { return NoInfix; }
      if c == '^' {
        Advance(1);
        return Operator(BitXor, 1);
      }
      if depth >= BIT_XOR_DEPTH { return NoInfix; }
      if c == '|' {
        Advance(1);
        return Operator(BitOr, 1);
      }
      if depth >= BIT_OR_DEPTH { return NoInfix; }
      if !sawCompare && c in {'=', '!', '<', '>'} {
        if c in {'=', '!'} && c2 != '=' { return Malformed; }
        Advance(if c2 == '=' then 2 else 1);
        return match c
          case '=' => Operator(Equal, 2)
          case '!' => Operator(NotEqual, 2)
          case '<' => if c2 == '=' then Operator(LessThanEqual, 2) else Operator(LessThan, 1)
          case _ => if c2 == '=' then Operator(GreaterThanEqual, 2) else Operator(GreaterThan, 1);
      }
      if depth >= COMPARE_DEPTH { return NoInfix; }
      var found := ConsumeKeyword("and");
      if found { return Operator(LogicalAnd, 3); }
      if depth >= AND_DEPTH { return NoInfix; }
      found := ConsumeKeyword("or");
      if found { return Operator(LogicalOr, 2); }
      if depth >= OR_DEPTH { return NoInfix; }
      if c == '?' {
        Advance(1);
        return Question;
      }
      return NoInfix;
    }
  }

  lemma SpanStep(test: char -> bool, s: string)
    requires s != "" && test(s[0])
    ensures s[Span(test, s)..] == s[1..][Span(test, s[1..])..]
  {}

  lemma Regroup(a: string, b: string)
    requires b != ""
    ensures a + b == (a + [b[0]]) + b[1..]
  {
    assert b == [b[0]] + b[1..];
  }

  lemma CutAt(a: string, b: string)
    ensures (a + b)[..|a|] == a && (a + b)[|a|..] == b
  {}

  lemma IdentSpan(s: string)
    requires s != "" && IsIdentStart(s[0])
    ensures Span(IsIdent, s) > 0
  {}

  /** ParseExpr: success means that no text is left over. */
  method ParseText(src: string) returns (r: Outcome)
    ensures r == ParseExpr(src)
  {
    hide Parse;
    if src == "" { return Nothing; }
    var p := new Parser(src);
    var root := p.Expr(0);
    if root == Panic(Unmodelled) { return Outside; }
    if root.Panic? || |p.s| > 0 { return Failure; }
    return Expression(root.value);
  }
}
