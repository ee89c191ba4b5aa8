/** The expression syntax tree and its printed form. */
module ExprAst {

  datatype UnaryOp = LogicalNot | Negate | Invert

  datatype BinaryOp =
    | Add | Sub | Mult | Div | Mod
    | LessThan | LessThanEqual | GreaterThan | GreaterThanEqual | Equal | NotEqual
    | ShiftLeft | ShiftRight | BitAnd | BitOr | BitXor
    | LogicalAnd | LogicalOr

  datatype Node =
    | Ident(name: string)
    | Int(n: nat)
    | Bool(b: bool)
    | Array(items: seq<Node>)
    | Call(obj: Node, args: seq<Node>)
    | Cast(operand: Node, ty: string)
    | Sizeof(ty: string)
    | BitSizeof(ty: string)
    | Unary(op: UnaryOp, a: Node)
    | Binary(bop: BinaryOp, l: Node, r: Node)
    | Ternary(c: Node, t: Node, e: Node)
    | Scope(operand: Node, ty: string)
    | Member(operand: Node, prop: string)
    | Subscript(arr: Node, index: Node)

  // ---- Characters --------------------------------------------------------

  predicate IsLetter(c: char) { 'a' <= c <= 'z' || 'A' <= c <= 'Z' }

  predicate IsDigit(c: char) { '0' <= c <= '9' }

  predicate IsNumber(c: char) { IsDigit(c) || c == '_' }

  predicate IsIdentStart(c: char) { IsLetter(c) || c == '_' }

  predicate IsIdent(c: char) { IsIdentStart(c) || IsDigit(c) }

  predicate IsWhitespace(c: char) { c == ' ' || c == '\n' }

  // ---- Printing ----------------------------------------------------------

  function OpText(op: BinaryOp): (t: string)
  {
    match op
    case Add => "+" case Sub => "-" case Mult => "*" case Div => "/" case Mod => "%"
    case LessThan => "<" case LessThanEqual => "<=" case GreaterThan => ">" case GreaterThanEqual => ">="
    case Equal => "==" case NotEqual => "!="
    case ShiftLeft => "<<" case ShiftRight => ">>"
    case BitAnd => "&" case BitOr => "|" case BitXor => "^"
    case LogicalAnd => "and" case LogicalOr => "or"
  }

  function UnaryText(op: UnaryOp): string
  {
    match op case LogicalNot => "not " case Negate => "-" case Invert => "~"
  }

  function Digit(d: nat): char
    requires d < 10
  {
    ['0', '1', '2', '3', '4', '5', '6', '7', '8', '9'][d]
  }

  /** A non-negative integer in decimal. */
  function Decimal(n: nat): (s: string)
    ensures |s| > 0
  {
    if n < 10 then [Digit(n)] else Decimal(n / 10) + [Digit(n % 10)]
  }

  /** The String methods of the nodes. Operands of postfix nodes are not parenthesised. */
  function Print(n: Node): string
  {
    match n
    case Ident(name) => name
    case Int(i) => Decimal(i)
    case Bool(b) => if b then "true" else "false"
    case Array(items) => "[" + PrintList(items) + "]"
    case Call(obj, args) => Print(obj) + "(" + PrintList(args) + ")"
    case Cast(operand, ty) => Print(operand) + ".as<" + ty + ">"
    case Sizeof(ty) => "sizeof<" + ty + ">"
    case BitSizeof(ty) => "bitsizeof<" + ty + ">"
    case Unary(op, a) => UnaryText(op) + "(" + Print(a) + ")"
    case Binary(op, l, r) => "(" + Print(l) + ") " + OpText(op) + " (" + Print(r) + ")"
    case Ternary(c, t, e) => "(" + Print(c) + ") ? (" + Print(t) + ") : (" + Print(e) + ")"
    case Scope(operand, ty) => Print(operand) + "::" + ty
    case Member(operand, prop) => Print(operand) + "." + prop
    case Subscript(arr, index) => Print(arr) + "[" + Print(index) + "]"
  }

  /** Items separated by commas. */
  function PrintList(items: seq<Node>): string
  {
    if items == [] then ""
    else if |items| == 1 then Print(items[0])
    else Print(items[0]) + ", " + PrintList(items[1..])
  }

  // ---- Levels of the precedence table ------------------------------------

  const TERNARY_DEPTH := 0
  const OR_DEPTH := 1
  const AND_DEPTH := 2
  const COMPARE_DEPTH := 3
  const BIT_OR_DEPTH := 4
  const BIT_XOR_DEPTH := 5
  const BIT_AND_DEPTH := 6
  const SHIFT_DEPTH := 7
  const ADD_DEPTH := 8
  const MULT_DEPTH := 9
  const MEMBER_DEPTH := 10
  const PRIMARY_DEPTH := 11

  function Level(op: BinaryOp): (l: nat)
    ensures OR_DEPTH <= l <= MULT_DEPTH
  {
    match op
    case Mult | Div | Mod => MULT_DEPTH
    case Add | Sub => ADD_DEPTH
    case ShiftLeft | ShiftRight => SHIFT_DEPTH
    case BitAnd => BIT_AND_DEPTH
    case BitXor => BIT_XOR_DEPTH
    case BitOr => BIT_OR_DEPTH
    case LessThan | LessThanEqual | GreaterThan | GreaterThanEqual | Equal | NotEqual => COMPARE_DEPTH
    case LogicalAnd => AND_DEPTH
    case LogicalOr => OR_DEPTH
  }
}
