/** What the expression parser accepts, as functions from text to a node and the rest of
    the text: the reference for the parser object. */
module ExprGrammar {
  import opened ExprAst

  /** `Unmodelled` marks string literals and floating point literals. */
  datatype ParseError = Syntax | Unmodelled

  datatype Result<+T> = Ok(value: T, rest: string) | Err(error: ParseError)

  // ---- Lexing ------------------------------------------------------------

  function Peek(s: string): char { if |s| > 0 then s[0] else '\0' }

  function Peek2(s: string): char { if |s| > 1 then s[1] else '\0' }

  /** The length of the longest prefix of characters that pass the test. */
  function Span(test: char -> bool, s: string): (k: nat)
    ensures k <= |s| && (forall i :: 0 <= i < k ==> test(s[i])) && (k < |s| ==> !test(s[k]))
  {
    if s == "" || !test(s[0]) then 0 else 1 + Span(test, s[1..])
  }

  function SkipWhitespace(s: string): (r: string)
    ensures |r| <= |s| && !IsWhitespace(Peek(r))
  {
    s[Span(IsWhitespace, s)..]
  }

  /** A keyword counts only if no identifier character follows it. */
  predicate StartsWithKeyword(s: string, keyword: string)
  {
    keyword <= s && !(|s| > |keyword| && IsIdent(s[|keyword|]))
  }

  function WithoutUnderscores(s: string): string
  {
    if s == "" then ""
    else (if s[0] == '_' then "" else [s[0]]) + WithoutUnderscores(s[1..])
  }

  function DigitValue(c: char): (v: nat)
    ensures v <= 36
  {
    if '0' <= c <= '9' then c as nat - '0' as nat
    else if 'a' <= c <= 'z' then c as nat - 'a' as nat + 10
    else if 'A' <= c <= 'Z' then c as nat - 'A' as nat + 10
    else 36
  }

  /** The number with these digits, if they all belong to the base and there is one. */
  function Numeral(s: string, base: nat): (r: Result<nat>)
  {
    if s == "" then Err(Syntax)
    else if DigitValue(s[|s| - 1]) >= base then Err(Syntax)
    else if |s| == 1 then Ok(DigitValue(s[0]), "")
    else
      match Numeral(s[..|s| - 1], base)
      case Ok(v, _) => Ok(v * base + DigitValue(s[|s| - 1]), "")
      case Err(e) => Err(e)
  }

  predicate IsHexOrUnderscore(c: char) { DigitValue(c) < 16 || c == '_' }
  predicate IsOctalOrUnderscore(c: char) { DigitValue(c) < 8 || c == '_' }
  predicate IsBinaryOrUnderscore(c: char) { DigitValue(c) < 2 || c == '_' }

  function Prefixed(s: string, test: char -> bool, base: nat): (r: Result<Node>)
    requires |s| > 0
    ensures r.Ok? ==> |r.rest| < |s|
  {
    var k := Span(test, s[1..]);
    match Numeral(WithoutUnderscores(s[1..][..k]), base)
    case Ok(v, _) => Ok(Int(v), s[1..][k..])
    case Err(e) => Err(e)
  }

  /** number: an integer literal. A leading zero means octal; a point or an exponent makes
      the literal a floating point one. */
  function Number(s: string): (r: Result<Node>)
    ensures r.Ok? ==> |r.rest| < |s|
  {
    var k := Span(IsNumber, s);
    var tok, rest := s[..k], s[k..];
    if tok == "0" && Peek(rest) in {'x', 'X'} then Prefixed(rest, IsHexOrUnderscore, 16)
    else if tok == "0" && Peek(rest) in {'o', 'O'} then Prefixed(rest, IsOctalOrUnderscore, 8)
    else if tok == "0" && Peek(rest) in {'b', 'B'} then Prefixed(rest, IsBinaryOrUnderscore, 2)
    else if Peek(rest) == '.' && (IsDigit(Peek2(rest)) || Peek2(rest) in {'e', 'E'} || !IsIdentStart(Peek2(rest))) then Err(Unmodelled)
    else if Peek(rest) in {'e', 'E'} then Err(Unmodelled)
    else
      var digits := WithoutUnderscores(tok);
      match Numeral(digits, if |digits| > 1 && digits[0] == '0' then 8 else 10)
      case Ok(v, _) => if k == 0 then Err(Syntax) else Ok(Int(v), rest)
      case Err(e) => Err(e)
  }

  /** The characters before the closing angle bracket. */
  predicate InTypeName(c: char) { c != '>' && c != '\0' }

  function TypeArgument(s: string): (r: Result<string>)
    ensures r.Ok? ==> |r.rest| < |s|
  {
    var k := Span(InTypeName, s);
    if k < |s| && s[k] == '>' then Ok(s[..k], s[k + 1..]) else Err(Syntax)
  }

  // ---- Infix operators ---------------------------------------------------

  datatype Infix = NoInfix | Operator(op: BinaryOp, len: nat) | Question | Malformed

  /** The infix operator the loop of `expr` takes next at a given depth, if any. Only one
      comparison is taken per call. */
  function NextInfix(depth: nat, sawCompare: bool, s: string): (i: Infix)
    ensures i.Operator? ==> 0 < i.len <= |s| && depth <= Level(i.op) && (Level(i.op) == COMPARE_DEPTH ==> !sawCompare)
    ensures i.Question? ==> |s| > 0 && depth == TERNARY_DEPTH
  {
    var c, c2 := Peek(s), Peek2(s);
    if depth >= MEMBER_DEPTH || s == "" then NoInfix
    else if c == '*' then Operator(Mult, 1)
    else if c == '/' then Operator(Div, 1)
    else if c == '%' then Operator(Mod, 1)
    else if depth >= MULT_DEPTH then NoInfix
    else if c == '+' then Operator(Add, 1)
    else if c == '-' then Operator(Sub, 1)
    else if depth >= ADD_DEPTH then NoInfix
    else if c == '<' && c2 == '<' then Operator(ShiftLeft, 2)
    else if c == '>' && c2 == '>' then Operator(ShiftRight, 2)
    else if depth >= SHIFT_DEPTH then NoInfix
    else if c == '&' then Operator(BitAnd, 1)
    else if depth >= BIT_AND_DEPTH then NoInfix
    else if c == '^' then Operator(BitXor, 1)
    else if depth >= BIT_XOR_DEPTH then NoInfix
    else if c == '|' then Operator(BitOr, 1)
    else if depth >= BIT_OR_DEPTH then NoInfix
    else if !sawCompare && c == '=' then (if c2 == '=' then Operator(Equal, 2) else Malformed)
    else if !sawCompare && c == '!' then (if c2 == '=' then Operator(NotEqual, 2) else Malformed)
    else if !sawCompare && c == '<' then (if c2 == '=' then Operator(LessThanEqual, 2) else Operator(LessThan, 1))
    else if !sawCompare && c == '>' then (if c2 == '=' then Operator(GreaterThanEqual, 2) else Operator(GreaterThan, 1))
    else if depth >= COMPARE_DEPTH then NoInfix
    else if StartsWithKeyword(s, "and") then Operator(LogicalAnd, 3)
    else if depth >= AND_DEPTH then NoInfix
    else if StartsWithKeyword(s, "or") then Operator(LogicalOr, 2)
    else if depth >= OR_DEPTH then NoInfix
    else if c == '?' then Question
    else NoInfix
  }

  // ---- Expressions -------------------------------------------------------

  /** expr: a primary expression, then postfix and infix operators down to a depth.
      Success always consumes text. */
  function Parse(depth: nat, s: string): (r: Result<Node>)
    ensures r.Ok? ==> |r.rest| < |s|
    decreases |s|, 2
  {
    match Primary(SkipWhitespace(s))
    case Err(e) => Err(e)
    case Ok(n, rest) => if depth >= PRIMARY_DEPTH then Ok(n, rest) else Tail(depth, n, false, rest)
  }

  function Primary(s: string): (r: Result<Node>)
    ensures r.Ok? ==> |r.rest| < |s|
    decreases |s|, 1
  {
    var c := Peek(s);
    if s == "" then Err(Syntax)
    else if IsIdentStart(c) then
      var k := Span(IsIdent, s);
      var tok, rest := s[..k], s[k..];
      if tok == "f" && Peek(rest) in {'"', '\''} then Err(Unmodelled)
      else if tok == "not" then
        match Parse(COMPARE_DEPTH, rest)
        case Ok(a, rest') => Ok(Unary(LogicalNot, a), rest')
        case Err(e) => Err(e)
      else if tok == "true" then Ok(Bool(true), rest)
      else if tok == "false" then Ok(Bool(false), rest)
      else if tok in {"sizeof", "bitsizeof"} && Peek(rest) == '<' then
        match TypeArgument(rest[1..])
        case Ok(ty, rest') => Ok(if tok == "sizeof" then Sizeof(ty) else BitSizeof(ty), rest')
        case Err(e) => Err(e)
      else Ok(Ident(tok), rest)
    else if IsNumber(c) || (c == '.' && IsDigit(Peek2(s))) then Number(s)
    else if c == '"' || c == '\'' then Err(Unmodelled)
    else if c == '(' then
      match Parse(0, s[1..])
      case Ok(n, rest) => if Peek(rest) == ')' then Ok(n, rest[1..]) else Err(Syntax)
      case Err(e) => Err(e)
    else if c == '[' then
      var s1 := SkipWhitespace(s[1..]);
      if Peek(s1) == ']' then Ok(Array([]), s1[1..])
      else
        (match Parse(0, s1)
         case Err(e) => Err(e)
         case Ok(n, rest) =>
           match MoreItems([n], rest)
           case Ok(items, rest') => Ok(Array(items), rest')
           case Err(e) => Err(e))
    else if c in {'-', '~', '+'} then
      match Parse(MEMBER_DEPTH, s[1..])
      case Ok(a, rest) => Ok(if c == '-' then Unary(Negate, a) else if c == '~' then Unary(Invert, a) else a, rest)
      case Err(e) => Err(e)
    else Err(Syntax)
  }

  /** The items of an array literal after the first; a comma may precede the bracket. */
  function MoreItems(items: seq<Node>, s: string): (r: Result<seq<Node>>)
    ensures r.Ok? ==> |r.rest| <= |s|
    decreases |s|, 0
  {
    var s1 := SkipWhitespace(s);
    if Peek(s1) == ']' then Ok(items, s1[1..])
    else if Peek(s1) != ',' then Err(Syntax)
    else
      var s2 := SkipWhitespace(s1[1..]);
      if Peek(s2) == ']' then Ok(items, s2[1..])
      else
        match Parse(0, s2)
        case Ok(n, rest) => MoreItems(items + [n], rest)
        case Err(e) => Err(e)
  }

  /** The arguments of a call after the first. */
  function MoreArgs(args: seq<Node>, s: string): (r: Result<seq<Node>>)
    ensures r.Ok? ==> |r.rest| <= |s|
    decreases |s|, 0
  {
    var s1 := SkipWhitespace(s);
    if Peek(s1) != ',' then Ok(args, s1)
    else
      match Parse(0, SkipWhitespace(s1[1..]))
      case Ok(n, rest) => MoreArgs(args + [n], rest)
      case Err(e) => Err(e)
  }

  function Args(s: string): (r: Result<seq<Node>>)
    ensures r.Ok? ==> |r.rest| <= |s|
    decreases |s|, 3
  {
    var s1 := SkipWhitespace(s);
    if Peek(s1) == ')' then Ok([], s1)
    else
      match Parse(0, s1)
      case Ok(n, rest) => MoreArgs([n], rest)
      case Err(e) => Err(e)
  }

  /** One postfix operator at the head of `s`, if there is one. */
  datatype Postfix = NoPostfix | Applied(n: Node, rest: string) | PostfixError(error: ParseError)

  function NextPostfix(n: Node, s: string): (p: Postfix)
    ensures p.Applied? ==> |p.rest| < |s|
    decreases |s|, 0
  {
    var c := Peek(s);
    if s == "" then NoPostfix
    else if c == ':' && Peek2(s) == ':' then
      var k := Span(IsIdent, s[2..]);
      Applied(Scope(n, s[2..][..k]), s[2..][k..])
    else if c == '.' then
      var k := Span(IsIdent, s[1..]);
      var prop, rest := s[1..][..k], s[1..][k..];
      if prop == "as" && Peek(rest) == '<' then
        match TypeArgument(rest[1..])
        case Ok(ty, rest') => Applied(Cast(n, ty), rest')
        case Err(e) => PostfixError(e)
      else Applied(Member(n, prop), rest)
    else if c == '(' then
      match Args(s[1..])
      case Ok(args, rest) => if Peek(rest) == ')' then Applied(Call(n, args), rest[1..]) else PostfixError(Syntax)
      case Err(e) => PostfixError(e)
    else if c == '[' then
      match Parse(0, s[1..])
      case Ok(i, rest) => if Peek(rest) == ']' then Applied(Subscript(n, i), rest[1..]) else PostfixError(Syntax)
      case Err(e) => PostfixError(e)
    else NoPostfix
  }

  /** The operator loop of expr. */
  function Tail(depth: nat, n: Node, sawCompare: bool, s0: string): (r: Result<Node>)
    ensures r.Ok? ==> |r.rest| <= |s0|
    decreases |s0|, 1
  {
    var s := SkipWhitespace(s0);
    if Peek(s) == '\0' then Ok(n, s)
    else
      match NextPostfix(n, s)
      case PostfixError(e) => Err(e)
      case Applied(n', rest) => Tail(depth, n', sawCompare, rest)
      case NoPostfix =>
        match NextInfix(depth, sawCompare, s)
        case NoInfix => Ok(n, s)
        case Malformed => Err(Syntax)
        case Operator(op, len) =>
          (match Parse(Level(op) + 1, s[len..])
           case Err(e) => Err(e)
           case Ok(b, rest) => Tail(depth, Binary(op, n, b), sawCompare || Level(op) == COMPARE_DEPTH, rest))
        case Question =>
          match Parse(0, s[1..])
          case Err(e) => Err(e)
          case Ok(b, rest) =>
            if Peek(rest) != ':' then Err(Syntax)
            else
              match Parse(0, rest[1..])
              case Err(e) => Err(e)
              case Ok(c, rest') => Ok(Ternary(n, b, c), rest')
  }

  /** ParseExpr: the whole text must be consumed; empty text is no expression. A parse
      that meets a string or floating point literal ends outside the model. */
  datatype Outcome = Nothing | Expression(root: Node) | Failure | Outside

  function ParseExpr(src: string): Outcome
  {
    if src == "" then Nothing
    else
      match Parse(0, src)
      case Ok(n, rest) => if rest == "" then Expression(n) else Failure
      case Err(Syntax) => Failure
      case Err(Unmodelled) => Outside
  }
}
