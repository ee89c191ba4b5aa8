/** Precedence, associativity and prefix operators: unparenthesised chains of operators. */
module ExprChain {
  import opened ExprAst
  import opened ExprGrammar
  import opened ExprRoundTrip

  // ---- Chains and their text -----------------------------------------------

  datatype Sign = Minus | Tilde | Plus | Not

  /** A prefix operator and the whitespace behind it. */
  datatype Prefix = Prefix(sign: Sign, gap: string)

  /** A primary or postfix node behind any number of prefixes. */
  datatype Term = Term(prefixes: seq<Prefix>, atom: Node)

  /** An infix operator in whitespace, and its right operand. */
  datatype Link = Link(before: string, op: BinaryOp, after: string, term: Term)

  predicate Blank(s: string)
  {
    forall i :: 0 <= i < |s| ==> s[i] == ' ' || s[i] == '\n'
  }

  ghost predicate Operand(n: Node)
  {
    Atom(n) && WellFormed(n)
  }

  predicate PrefixOk(p: Prefix)
  {
    Blank(p.gap) && (p.sign == Not ==> p.gap != "")
  }

  ghost predicate TermOk(t: Term)
  {
    Operand(t.atom) && forall i :: 0 <= i < |t.prefixes| ==> PrefixOk(t.prefixes[i])
  }

  /** Words need whitespace around them, and so that it is not the bracket of a type name, `<`
      in front. */
  ghost predicate LinkOk(k: Link)
  {
    && Blank(k.before) && Blank(k.after) && TermOk(k.term)
    && (k.op in {LogicalAnd, LogicalOr} ==> k.before != "" && k.after != "")
    && (k.op in {LessThan, LessThanEqual, ShiftLeft} ==> k.before != "")
  }

  ghost predicate LinksOk(links: seq<Link>)
  {
    forall i :: 0 <= i < |links| ==> LinkOk(links[i])
  }

  function SignText(s: Sign): string
  {
    match s case Minus => "-" case Tilde => "~" case Plus => "+" case Not => "not"
  }

  /** The text of a term with `u` behind it. */
  function TermText(t: Term, u: string): string
    decreases |t.prefixes|
  {
    if t.prefixes == [] then Print(t.atom) + u
    else SignText(t.prefixes[0].sign) + (t.prefixes[0].gap + TermText(Rest(t), u))
  }

  /** The term without its first prefix. */
  function Rest(t: Term): (r: Term)
    requires t.prefixes != []
    ensures |r.prefixes| < |t.prefixes|
  {
    t.(prefixes := t.prefixes[1..])
  }

  /** The text of links with `u` behind them. */
  function LinksText(links: seq<Link>, u: string): string
    decreases |links|
  {
    if links == [] then u else links[0].before + LinkText(links, u)
  }

  /** ... without the whitespace in front. */
  function LinkText(links: seq<Link>, u: string): string
    requires links != []
    decreases |links|, 0
  {
    OpText(links[0].op) + (links[0].after + TermText(links[0].term, LinksText(links[1..], u)))
  }

  // ---- The tables -----------------------------------------------------------

  /** The characters of names, numbers and whitespace. */
  lemma CharacterClasses(c: char)
    ensures IsLetter(c) <==> c in "abcdefghijklmnopqrstuvwxyz" || c in "ABCDEFGHIJKLMNOPQRSTUVWXYZ"
    ensures IsDigit(c) <==> c in "0123456789"
    ensures IsIdentStart(c) <==> IsLetter(c) || c == '_'
    ensures IsIdent(c) <==> IsLetter(c) || IsDigit(c) || c == '_'
    ensures IsWhitespace(c) <==> c in " \n"
  {}

  /** How the operators are spelled. */
  lemma OperatorSpellings()
    ensures OpText(Mult) == "*" && OpText(Div) == "/" && OpText(Mod) == "%" && OpText(Add) == "+" && OpText(Sub) == "-"
    ensures OpText(ShiftLeft) == "<<" && OpText(ShiftRight) == ">>"
    ensures OpText(BitAnd) == "&" && OpText(BitXor) == "^" && OpText(BitOr) == "|"
    ensures OpText(LessThan) == "<" && OpText(LessThanEqual) == "<=" && OpText(GreaterThan) == ">" && OpText(GreaterThanEqual) == ">="
    ensures OpText(Equal) == "==" && OpText(NotEqual) == "!=" && OpText(LogicalAnd) == "and" && OpText(LogicalOr) == "or"
  {}

  /** Which operators bind tighter: products, sums, shifts, the three bit operators each on a
      level of its own, comparisons, `and`, `or`. */
  lemma PrecedenceTable()
    ensures forall op :: op in {Mult, Div, Mod} <==> Level(op) == Level(Mult)
    ensures forall op :: op in {Add, Sub} <==> Level(op) == Level(Add)
    ensures forall op :: op in {ShiftLeft, ShiftRight} <==> Level(op) == Level(ShiftLeft)
    ensures forall op :: op in {LessThan, LessThanEqual, GreaterThan, GreaterThanEqual, Equal, NotEqual} <==> Level(op) == Level(Equal)
    ensures Level(Mult) > Level(Add) > Level(ShiftLeft) > Level(BitAnd) > Level(BitXor) > Level(BitOr) > Level(Equal)
            > Level(LogicalAnd) > Level(LogicalOr)
    ensures Level(Equal) == COMPARE_DEPTH
  {}

  // ---- Trees over a chain --------------------------------------------------

  datatype Token = InfixOp(op: BinaryOp) | PrefixOp(uop: UnaryOp) | Leaf(n: Node)

  /** The operators and operands of a tree in reading order. */
  function Tokens(t: Node): (s: seq<Token>)
    ensures s != []
  {
    match t
    case Binary(op, l, r) => Tokens(l) + [InfixOp(op)] + Tokens(r)
    case Unary(op, a) => [PrefixOp(op)] + Tokens(a)
    case _ => [Leaf(t)]
  }

  /** The same of a chain; a prefix `+` leaves no trace. */
  function TermTokens(t: Term): (s: seq<Token>)
    ensures s != []
    decreases |t.prefixes|
  {
    if t.prefixes == [] then [Leaf(t.atom)]
    else
      match t.prefixes[0].sign
      case Minus => [PrefixOp(Negate)] + TermTokens(Rest(t))
      case Tilde => [PrefixOp(Invert)] + TermTokens(Rest(t))
      case Not => [PrefixOp(LogicalNot)] + TermTokens(Rest(t))
      case Plus => TermTokens(Rest(t))
  }

  function LinksTokens(links: seq<Link>): seq<Token>
  {
    if links == [] then [] else [InfixOp(links[0].op)] + TermTokens(links[0].term) + LinksTokens(links[1..])
  }

  function ChainTokens(first: Term, links: seq<Link>): seq<Token>
  {
    TermTokens(first) + LinksTokens(links)
  }

  /** How tightly the root of a tree binds. */
  function RootLevel(t: Node): nat
  {
    if t.Binary? then Level(t.bop) else if t.Unary? then MEMBER_DEPTH else PRIMARY_DEPTH
  }

  /** At the right end of the tree is a `not` that could have taken the operator: `not` takes
      operators down to comparisons, and one comparison at most. */
  predicate Reaches(t: Node, op: BinaryOp)
  {
    match t
    case Binary(_, _, r) => Reaches(r, op)
    case Unary(LogicalNot, a) =>
      Level(op) > COMPARE_DEPTH || (Level(op) == COMPARE_DEPTH && RootLevel(a) > COMPARE_DEPTH) || Reaches(a, op)
    case Unary(_, a) => Reaches(a, op)
    case _ => false
  }

  /** The tree of the precedence table. Right children bind strictly tighter, left children at
      least as tight, and strictly tighter below a comparison. `-` and `~` apply to one operand,
      `not` to all that it can take. */
  predicate Shaped(t: Node)
  {
    match t
    case Binary(op, l, r) =>
      && Shaped(l) && Shaped(r)
      && RootLevel(r) > Level(op)
      && RootLevel(l) >= Level(op)
      && (Level(op) == COMPARE_DEPTH ==> RootLevel(l) > COMPARE_DEPTH)
      && !Reaches(l, op)
    case Unary(op, a) => Shaped(a) && RootLevel(a) >= if op == LogicalNot then COMPARE_DEPTH else MEMBER_DEPTH
    case _ => true
  }

  /** There is a place for every comparison: one behind each `and` or `or`, and one in the
      operand of each `not`. `places` says how many are free. */
  predicate Separated(tokens: seq<Token>, places: nat)
  {
    tokens == [] ||
    match tokens[0]
    case Leaf(_) => Separated(tokens[1..], places)
    case PrefixOp(op) => Separated(tokens[1..], if op == LogicalNot then places + 1 else places)
    case InfixOp(op) =>
      if Level(op) == COMPARE_DEPTH then places > 0 && Separated(tokens[1..], places - 1)
      else Separated(tokens[1..], if Level(op) < COMPARE_DEPTH then 1 else places)
  }

  // ---- The parser on chains ------------------------------------------------

  predicate Takes(depth: nat, saw: bool, op: BinaryOp)
  {
    depth <= Level(op) && (Level(op) == COMPARE_DEPTH ==> !saw)
  }

  /** A prefix operator applied. */
  function Signed(s: Sign, x: Node): Node
  {
    match s
    case Minus => Unary(Negate, x)
    case Tilde => Unary(Invert, x)
    case Not => Unary(LogicalNot, x)
    case Plus => x
  }

  /** A primary expression at the head of a chain, and the links left. */
  function Start(t: Term, links: seq<Link>): (res: (Node, seq<Link>))
    ensures |res.1| <= |links|
    decreases |links|, |t.prefixes|, 1
  {
    if t.prefixes == [] then (t.atom, links)
    else
      match t.prefixes[0].sign
      case Minus => var (x, rest) := Start(Rest(t), links); (Unary(Negate, x), rest)
      case Tilde => var (x, rest) := Start(Rest(t), links); (Unary(Invert, x), rest)
      case Plus => Start(Rest(t), links)
      case Not => var (x, _, rest) := ClimbFrom(COMPARE_DEPTH, Rest(t), links); (Unary(LogicalNot, x), rest)
  }

  function ClimbFrom(depth: nat, t: Term, links: seq<Link>): (res: (Node, bool, seq<Link>))
    ensures |res.2| <= |links|
    ensures res.2 != [] ==> !Takes(depth, res.1, res.2[0].op)
    decreases |links|, |t.prefixes|, 2
  {
    var (x, rest) := Start(t, links);
    Climb(depth, x, false, rest)
  }

  /** The operator loop of expr on a chain: the tree, whether the loop took a comparison, and
      the links left. */
  function Climb(depth: nat, l: Node, saw: bool, links: seq<Link>): (res: (Node, bool, seq<Link>))
    ensures |res.2| <= |links|
    ensures res.2 != [] ==> !Takes(depth, res.1, res.2[0].op)
    decreases |links|, 0, 0
  {
    if links == [] || !Takes(depth, saw, links[0].op) then (l, saw, links)
    else
      var op := links[0].op;
      var (r, _, rest) := ClimbFrom(Level(op) + 1, links[0].term, links[1..]);
      Climb(depth, Binary(op, l, r), saw || Level(op) == COMPARE_DEPTH, rest)
  }

  // ---- The text of chains --------------------------------------------------

  /** Text that ends an operator loop: it closes something, or is the colon of a ternary, or at
      an inner depth its question mark. Whitespace may stand in front. */
  predicate Closes(depth: nat, u: string)
  {
    var v := SkipWhitespace(u);
    Stop(v) || (v[0] == ':' && !(|v| > 1 && v[1] == ':')) || (v[0] == '?' && depth > 0)
  }

  /** Such text right behind a term. */
  predicate EndOk(u: string)
  {
    Follows(u) && (u == "" || u[0] != '.') && Closes(1, u)
  }

  lemma {:induction false} SkipBlank(gap: string, s: string)
    requires Blank(gap)
    ensures SkipWhitespace(gap + s) == SkipWhitespace(s)
  {
    if gap == "" {
      assert gap + s == s;
    } else {
      assert (gap + s)[1..] == gap[1..] + s;
      SkipBlank(gap[1..], s);
      SkipOne(gap + s);
    }
  }

  lemma SkipOne(s: string)
    requires s != "" && IsWhitespace(s[0])
    ensures SkipWhitespace(s) == SkipWhitespace(s[1..])
  {}

  lemma SkipTwice(s: string)
    ensures SkipWhitespace(SkipWhitespace(s)) == SkipWhitespace(s)
  {
    SkipNothing(SkipWhitespace(s));
  }

  lemma TailSkips(depth: nat, n: Node, saw: bool, s: string)
    ensures Tail(depth, n, saw, SkipWhitespace(s)) == Tail(depth, n, saw, s)
  {
    hide NextPostfix, NextInfix, Parse, SkipWhitespace;
    SkipTwice(s);
  }

  lemma ParseSkips(depth: nat, gap: string, s: string)
    requires Blank(gap)
    ensures Parse(depth, gap + s) == Parse(depth, s)
  {
    hide Primary, Tail, SkipWhitespace;
    SkipBlank(gap, s);
  }

  lemma TermStarts(t: Term, u: string)
    requires TermOk(t)
    ensures var s := TermText(t, u); s != "" && (IsIdent(s[0]) || s[0] in {'[', '(', '-', '~', '+'})
  {
    hide WellFormed, Print;
    if t.prefixes == [] {
      WellFormedLexical(t.atom);
      PrintStarts(t.atom);
    }
  }

  /** What follows a term in a chain. */
  lemma LinksFollow(links: seq<Link>, u: string)
    requires LinksOk(links) && EndOk(u)
    ensures var s := LinksText(links, u); Follows(s) && (s == "" || s[0] != '.')
  {
    hide TermOk, TermText;
    if links != [] {
      var k := links[0];
      assert LinkOk(k);
      if k.before == "" { assert k.before + LinkText(links, u) == LinkText(links, u); }
    }
  }

  /** Text behind an operator: whitespace, or the start of a term if the operator is no word. */
  predicate BehindOperator(op: BinaryOp, text: string)
  {
    text != "" && (IsWhitespace(text[0]) || IsIdent(text[0]) || text[0] in {'[', '(', '-', '~', '+'}) &&
    (op in {LogicalAnd, LogicalOr} ==> IsWhitespace(text[0]))
  }

  /** An operator is taken at the depths of its level and above, and left otherwise. */
  lemma OperatorNext(depth: nat, saw: bool, op: BinaryOp, text: string)
    requires BehindOperator(op, text)
    ensures NextInfix(depth, saw, OpText(op) + text) == if Takes(depth, saw, op) then Operator(op, |OpText(op)|) else NoInfix
  {
    var s := OpText(op) + text;
    OperatorChars(op, text);
    assert op.LogicalAnd? ==> "and" <= s;
    assert op.LogicalOr? ==> "or" <= s;
  }

  lemma OperatorChars(op: BinaryOp, text: string)
    requires text != ""
    ensures var s := OpText(op) + text;
            s[0] == OpText(op)[0] && !IsWhitespace(s[0]) && s[0] != '\0' && s[|OpText(op)|] == text[0] && s[|OpText(op)|..] == text &&
            (|OpText(op)| > 1 ==> s[1] == OpText(op)[1]) && (|OpText(op)| > 2 ==> s[2] == OpText(op)[2])
  {}

  lemma OperatorNoPostfix(n: Node, op: BinaryOp, text: string)
    requires text != ""
    ensures NextPostfix(n, OpText(op) + text) == NoPostfix
  {
    hide Parse, Args, TypeArgument, Span;
    OperatorChars(op, text);
  }

  /** The operator at the head of a link. */
  lemma LinkHead(depth: nat, saw: bool, links: seq<Link>, u: string)
    requires links != [] && LinkOk(links[0])
    ensures var s, op := LinkText(links, u), links[0].op;
            s != "" && !IsWhitespace(s[0]) && s[0] != '\0' && |OpText(op)| <= |s| &&
            s[|OpText(op)|..] == links[0].after + TermText(links[0].term, LinksText(links[1..], u)) &&
            NextInfix(depth, saw, s) == if Takes(depth, saw, op) then Operator(op, |OpText(op)|) else NoInfix
    ensures forall n :: NextPostfix(n, LinkText(links, u)) == NoPostfix
  {
    hide NextInfix, NextPostfix, OpText, TermOk, TermText, LinksText, Takes;
    var k := links[0];
    var term := TermText(k.term, LinksText(links[1..], u));
    TermStarts(k.term, LinksText(links[1..], u));
    assert (k.after + term)[0] == if k.after == "" then term[0] else k.after[0];
    OperatorChars(k.op, k.after + term);
    OperatorNext(depth, saw, k.op, k.after + term);
    forall n ensures NextPostfix(n, LinkText(links, u)) == NoPostfix { OperatorNoPostfix(n, k.op, k.after + term); }
  }

  // ---- The parser does what `Climb` does -------------------------------------

  lemma {:induction false} ClosesInner(depth: nat, u: string)
    requires Closes(1, u) && depth > 0
    ensures Closes(depth, u)
  {}

  /** An operator loop that takes none of the links ends in front of them. */
  lemma TailEnds(depth: nat, n: Node, saw: bool, links: seq<Link>, u: string)
    requires LinksOk(links) && (links != [] ==> !Takes(depth, saw, links[0].op))
    requires links == [] ==> Closes(depth, u)
    ensures Tail(depth, n, saw, LinksText(links, u)) == Ok(n, SkipWhitespace(LinksText(links, u)))
  {
    hide NextInfix, NextPostfix, Parse, SkipWhitespace, TermText, TermOk;
    var s := SkipWhitespace(LinksText(links, u));
    if links == [] {
      ClosedTakesNothing(depth, n, saw, u);
    } else {
      assert LinkOk(links[0]);
      LinkHead(depth, saw, links, u);
      SkipBlank(links[0].before, LinkText(links, u));
      SkipNothing(LinkText(links, u));
    }
  }

  lemma ClosedTakesNothing(depth: nat, n: Node, saw: bool, u: string)
    requires Closes(depth, u)
    ensures var v := SkipWhitespace(u);
            v == "" || v[0] == '\0' || (NextPostfix(n, v) == NoPostfix && NextInfix(depth, saw, v) == NoInfix)
  {
    hide Parse, Args, Span, TypeArgument, SkipWhitespace;
  }

  /** A loop that takes a link. */
  lemma TailTakesLink(depth: nat, l: Node, saw: bool, links: seq<Link>, u: string, r: Node, rest: string)
    requires links != [] && LinkOk(links[0]) && Takes(depth, saw, links[0].op)
    requires Parse(Level(links[0].op) + 1, TermText(links[0].term, LinksText(links[1..], u))) == Ok(r, rest)
    ensures Tail(depth, l, saw, LinksText(links, u)) ==
            Tail(depth, Binary(links[0].op, l, r), saw || Level(links[0].op) == COMPARE_DEPTH, rest)
  {
    hide NextInfix, NextPostfix, Parse, SkipWhitespace, TermText, TermOk, LinkText;
    var k := links[0];
    LinkHead(depth, saw, links, u);
    SkipBlank(k.before, LinkText(links, u));
    SkipNothing(LinkText(links, u));
    ParseSkips(Level(k.op) + 1, k.after, TermText(k.term, LinksText(links[1..], u)));
  }

  /** One prefix operator. */
  lemma PrefixParses(depth: nat, sign: Sign, gap: string, s: string, x: Node, rest: string)
    requires depth <= MEMBER_DEPTH && Blank(gap) && (sign == Not ==> gap != "")
    requires Parse(if sign == Not then COMPARE_DEPTH else MEMBER_DEPTH, s) == Ok(x, rest)
    ensures Parse(depth, SignText(sign) + (gap + s)) ==
            Tail(depth, Signed(sign, x), false, rest)
  {
    hide Parse, Tail, Number, Span, TypeArgument, SkipWhitespace, MoreItems;
    var text := SignText(sign) + (gap + s);
    ParseSkips(if sign == Not then COMPARE_DEPTH else MEMBER_DEPTH, gap, s);
    if sign == Not {
      SpanOver(IsIdent, "not", gap + s);
    } else {
      assert text[1..] == gap + s;
    }
    PrimaryMakesParse(depth, text, Signed(sign, x), rest);
  }

  /** A term at the head of a chain, read at any depth: the loop goes on behind it. */
  lemma {:induction false} ParseIsStart(depth: nat, t: Term, links: seq<Link>, u: string)
    requires depth <= MEMBER_DEPTH && TermOk(t) && LinksOk(links) && EndOk(u)
    ensures LinksOk(Start(t, links).1)
    ensures Parse(depth, TermText(t, LinksText(links, u))) == Tail(depth, Start(t, links).0, false, LinksText(Start(t, links).1, u))
    decreases |links|, |t.prefixes|, 1
  {
    hide Parse, Tail, Print, Operand, LinkOk, LinksText, EndOk;
    if t.prefixes == [] {
      LinksFollow(links, u);
      assert Operand(t.atom);
      OperandParses(depth, t.atom, LinksText(links, u));
    } else {
      var sign, gap, more := t.prefixes[0].sign, t.prefixes[0].gap, Rest(t);
      assert PrefixOk(t.prefixes[0]);
      assert EndOk(u) ==> Closes(1, u) by { EndCloses(u); }
      if sign == Not {
        var (x, saw, rest) := ClimbFrom(COMPARE_DEPTH, more, links);
        ParseIsClimb(COMPARE_DEPTH, more, links, u);
        ClosesInner(COMPARE_DEPTH, u);
        TailEnds(COMPARE_DEPTH, x, saw, rest, u);
        PrefixParses(depth, sign, gap, TermText(more, LinksText(links, u)), x, SkipWhitespace(LinksText(rest, u)));
        TailSkips(depth, Unary(LogicalNot, x), false, LinksText(rest, u));
      } else {
        var (x, rest) := Start(more, links);
        ParseIsStart(MEMBER_DEPTH, more, links, u);
        ClosesInner(MEMBER_DEPTH, u);
        TailEnds(MEMBER_DEPTH, x, false, rest, u);
        PrefixParses(depth, sign, gap, TermText(more, LinksText(links, u)), x, SkipWhitespace(LinksText(rest, u)));
        TailSkips(depth, Start(t, links).0, false, LinksText(rest, u));
      }
    }
  }

  lemma EndCloses(u: string)
    requires EndOk(u)
    ensures Closes(1, u)
  {}

  lemma OperandParses(depth: nat, n: Node, u: string)
    requires Operand(n) && depth <= MEMBER_DEPTH && Follows(u) && (u == "" || u[0] != '.')
    ensures Parse(depth, Print(n) + u) == Tail(depth, n, false, u)
  {
    hide Parse, Tail, Print, WellFormed;
    AtomParses(n, depth, u);
  }

  lemma {:induction false} ParseIsClimb(depth: nat, t: Term, links: seq<Link>, u: string)
    requires depth <= MEMBER_DEPTH && TermOk(t) && LinksOk(links) && EndOk(u)
    ensures var (n, saw, rest) := ClimbFrom(depth, t, links);
            LinksOk(rest) && Parse(depth, TermText(t, LinksText(links, u))) == Tail(depth, n, saw, LinksText(rest, u))
    decreases |links|, |t.prefixes|, 2
  {
    hide Parse, Tail, Print, LinkOk, LinksText, EndOk, TermOk, Start, Climb, TermText;
    var (x, rest) := Start(t, links);
    ParseIsStart(depth, t, links, u);
    TailIsClimb(depth, x, false, rest, u);
  }

  /** The operator loop, character by character, does what `Climb` does link by link. */
  lemma {:induction false} TailIsClimb(depth: nat, l: Node, saw: bool, links: seq<Link>, u: string)
    requires depth <= MEMBER_DEPTH && LinksOk(links) && EndOk(u)
    ensures var (n, saw', rest) := Climb(depth, l, saw, links);
            LinksOk(rest) && Tail(depth, l, saw, LinksText(links, u)) == Tail(depth, n, saw', LinksText(rest, u))
    decreases |links|, 0, 0
  {
    hide Parse, Tail, Print, LinksText, EndOk, TermOk, TermText, ClimbFrom, Takes;
    if links != [] && Takes(depth, saw, links[0].op) {
      var op, term, more := links[0].op, links[0].term, links[1..];
      assert LinkOk(links[0]);
      var (r, saw', rest) := ClimbFrom(Level(op) + 1, term, more);
      ParseIsClimb(Level(op) + 1, term, more, u);
      EndCloses(u);
      ClosesInner(Level(op) + 1, u);
      TailEnds(Level(op) + 1, r, saw', rest, u);
      TailTakesLink(depth, l, saw, links, u, r, SkipWhitespace(LinksText(rest, u)));
      TailSkips(depth, Binary(op, l, r), saw || Level(op) == COMPARE_DEPTH, LinksText(rest, u));
      TailIsClimb(depth, Binary(op, l, r), saw || Level(op) == COMPARE_DEPTH, rest, u);
    }
  }

  // ---- The tree is in shape --------------------------------------------------

  /** What a loop leaves over: links that start with an operator below its depth, or with one
      comparison too many, which no `not` inside could have taken. */
  ghost predicate Ended(depth: nat, t: Node, rest: seq<Link>)
  {
    rest != [] ==>
      var op := rest[0].op;
      !Reaches(t, op) &&
      (Level(op) < depth || (depth <= COMPARE_DEPTH && Level(op) == COMPARE_DEPTH && RootLevel(t) == COMPARE_DEPTH))
  }

  /** A loop at this depth has a place for a comparison of its own. */
  function Own(depth: nat, saw: bool): nat
  {
    if depth <= COMPARE_DEPTH && !saw then 1 else 0
  }

  /** The state of a loop: what it built, and what may come. */
  ghost predicate InShape(depth: nat, l: Node, saw: bool, links: seq<Link>, places: nat)
  {
    && depth <= MEMBER_DEPTH && Shaped(l) && RootLevel(l) >= depth
    && Separated(LinksTokens(links), places + Own(depth, saw))
    && (depth < COMPARE_DEPTH ==> places == 0)
    && (saw ==> depth <= COMPARE_DEPTH && RootLevel(l) <= COMPARE_DEPTH)
    && (RootLevel(l) == COMPARE_DEPTH ==> saw)
    && (links != [] ==> Level(links[0].op) <= RootLevel(l) && !Reaches(l, links[0].op))
  }

  lemma {:induction false} MorePlaces(tokens: seq<Token>, a: nat, b: nat)
    requires Separated(tokens, a) && a <= b
    ensures Separated(tokens, b)
  {
    if tokens != [] {
      match tokens[0] {
        case Leaf(_) => MorePlaces(tokens[1..], a, b);
        case PrefixOp(op) => if op == LogicalNot { MorePlaces(tokens[1..], a + 1, b + 1); } else { MorePlaces(tokens[1..], a, b); }
        case InfixOp(op) =>
          if Level(op) == COMPARE_DEPTH { MorePlaces(tokens[1..], a - 1, b - 1); }
          else if Level(op) > COMPARE_DEPTH { MorePlaces(tokens[1..], a, b); }
      }
    }
  }

  /** Links that start below comparisons need no place. */
  lemma LooseLinks(links: seq<Link>, a: nat, b: nat)
    requires Separated(LinksTokens(links), a) && (links != [] ==> Level(links[0].op) < COMPARE_DEPTH)
    ensures Separated(LinksTokens(links), b)
  {
    hide TermTokens;
    if links != [] {
      var s := LinksTokens(links);
      assert s[0] == InfixOp(links[0].op);
    }
  }

  /** A place for the first operator of links. */
  lemma LinkSeparated(links: seq<Link>, places: nat)
    requires links != [] && Separated(LinksTokens(links), places)
    ensures var level := Level(links[0].op);
            (level == COMPARE_DEPTH ==> places > 0) &&
            Separated(TermTokens(links[0].term) + LinksTokens(links[1..]),
                      if level == COMPARE_DEPTH then places - 1 else if level < COMPARE_DEPTH then 1 else places)
  {
    hide TermTokens;
    var s := LinksTokens(links);
    assert s[0] == InfixOp(links[0].op);
    assert s[1..] == TermTokens(links[0].term) + LinksTokens(links[1..]);
  }

  lemma {:induction false} StartShaped(t: Term, links: seq<Link>, places: nat)
    requires TermOk(t) && LinksOk(links) && Separated(TermTokens(t) + LinksTokens(links), places)
    ensures var (x, rest) := Start(t, links);
            LinksOk(rest) && !x.Binary? && Shaped(x) && RootLevel(x) >= MEMBER_DEPTH &&
            Tokens(x) + LinksTokens(rest) == TermTokens(t) + LinksTokens(links) &&
            Separated(LinksTokens(rest), places) && (rest != [] ==> !Reaches(x, rest[0].op))
    decreases |links|, |t.prefixes|, 1
  {
    hide Separated, Reaches, Shaped, LinkOk, LinksTokens, Climb;
    if t.prefixes == [] {
      AtomShaped(t, links, places);
    } else {
      var more := Rest(t);
      var (x, rest) := Start(t, links);
      assert PrefixOk(t.prefixes[0]);
      if t.prefixes[0].sign == Plus {
        StartShaped(more, links, places);
      } else {
        var op := if t.prefixes[0].sign == Minus then Negate else if t.prefixes[0].sign == Tilde then Invert else LogicalNot;
        PrefixSeparated(op, TermTokens(more), LinksTokens(links), places);
        if op == LogicalNot {
          ClimbFromShaped(COMPARE_DEPTH, more, links, places);
        } else {
          StartShaped(more, links, places);
        }
        PrefixShaped(op, x.a, rest, TermTokens(more), links);
      }
    }
  }

  lemma AtomShaped(t: Term, links: seq<Link>, places: nat)
    requires TermOk(t) && t.prefixes == [] && Separated(TermTokens(t) + LinksTokens(links), places)
    ensures !t.atom.Binary? && Shaped(t.atom) && RootLevel(t.atom) >= MEMBER_DEPTH && Tokens(t.atom) == TermTokens(t)
    ensures Separated(LinksTokens(links), places) && forall op :: !Reaches(t.atom, op)
  {
    hide LinksTokens;
    var s := TermTokens(t) + LinksTokens(links);
    assert s[1..] == LinksTokens(links);
  }

  lemma PrefixSeparated(op: UnaryOp, a: seq<Token>, b: seq<Token>, places: nat)
    requires Separated([PrefixOp(op)] + a + b, places)
    ensures Separated(a + b, if op == LogicalNot then places + 1 else places)
  {
    assert ([PrefixOp(op)] + a + b)[1..] == a + b;
  }

  lemma PrefixShaped(op: UnaryOp, a: Node, rest: seq<Link>, tokens: seq<Token>, links: seq<Link>)
    requires Shaped(a) && RootLevel(a) >= (if op == LogicalNot then COMPARE_DEPTH else MEMBER_DEPTH)
    requires Tokens(a) + LinksTokens(rest) == tokens + LinksTokens(links)
    requires if op == LogicalNot then Ended(COMPARE_DEPTH, a, rest) else rest != [] ==> !Reaches(a, rest[0].op)
    ensures var x := Unary(op, a);
            Shaped(x) && Tokens(x) + LinksTokens(rest) == [PrefixOp(op)] + tokens + LinksTokens(links) &&
            (rest != [] ==> !Reaches(x, rest[0].op))
  {
    hide LinksTokens, Tokens, Level;
    UnaryTokens(op, a);
    PrefixJoined(PrefixOp(op), Tokens(a), LinksTokens(rest), tokens, LinksTokens(links));
    if rest != [] { UnaryReaches(op, a, rest[0].op); }
  }

  lemma UnaryTokens(op: UnaryOp, a: Node)
    ensures Tokens(Unary(op, a)) == [PrefixOp(op)] + Tokens(a)
  {}

  lemma UnaryReaches(op: UnaryOp, a: Node, next: BinaryOp)
    ensures Reaches(Unary(op, a), next) ==>
            Reaches(a, next) || (op == LogicalNot &&
              (Level(next) > COMPARE_DEPTH || (Level(next) == COMPARE_DEPTH && RootLevel(a) > COMPARE_DEPTH)))
  {
    hide Level, RootLevel;
  }

  lemma PrefixJoined(x: Token, a: seq<Token>, b: seq<Token>, c: seq<Token>, d: seq<Token>)
    requires a + b == c + d
    ensures [x] + a + b == [x] + c + d
  {
    assert [x] + a + b == [x] + (a + b);
    assert [x] + c + d == [x] + (c + d);
  }

  lemma {:induction false} ClimbFromShaped(depth: nat, t: Term, links: seq<Link>, places: nat)
    requires depth <= MEMBER_DEPTH && TermOk(t) && LinksOk(links) && (depth < COMPARE_DEPTH ==> places == 0)
    requires Separated(TermTokens(t) + LinksTokens(links), places + Own(depth, false))
    ensures var (n, _, rest) := ClimbFrom(depth, t, links);
            LinksOk(rest) && Shaped(n) && RootLevel(n) >= depth && Ended(depth, n, rest) &&
            Tokens(n) + LinksTokens(rest) == TermTokens(t) + LinksTokens(links) && Separated(LinksTokens(rest), places)
    decreases |links|, |t.prefixes|, 2
  {
    hide Separated, Reaches, Shaped, LinkOk, LinksTokens, Climb, Start, Tokens, TermTokens;
    StartShaped(t, links, places + Own(depth, false));
    var (x, rest) := Start(t, links);
    ClimbIsShaped(depth, x, false, rest, places);
  }

  /** The loop builds a tree of the precedence table. */
  lemma {:induction false} ClimbIsShaped(depth: nat, l: Node, saw: bool, links: seq<Link>, places: nat)
    requires LinksOk(links) && InShape(depth, l, saw, links, places)
    ensures var (n, _, rest) := Climb(depth, l, saw, links);
            LinksOk(rest) && Shaped(n) && RootLevel(n) >= depth && Ended(depth, n, rest) &&
            Tokens(n) + LinksTokens(rest) == Tokens(l) + LinksTokens(links) && Separated(LinksTokens(rest), places)
    decreases |links|, 0, 0
  {
    hide Separated, Reaches, Shaped, LinkOk, LinksTokens, ClimbFrom, Tokens, TermTokens, InShape, Ended, RootLevel;
    if links == [] || !Takes(depth, saw, links[0].op) {
      NothingTaken(depth, l, saw, links, places);
    } else {
      var op, term, more := links[0].op, links[0].term, links[1..];
      assert LinkOk(links[0]);
      assert TermOk(term) by { LinkTerm(links[0]); }
      var inner := Inner(op, depth, saw, places);
      LinkTaken(depth, l, saw, links, places);
      ClimbFromShaped(Level(op) + 1, term, more, inner);
      var (r, _, rest) := ClimbFrom(Level(op) + 1, term, more);
      Grown(depth, l, saw, links, places, r, rest);
      ClimbIsShaped(depth, Binary(op, l, r), saw || Level(op) == COMPARE_DEPTH, rest, places);
    }
  }

  lemma LinkTerm(k: Link)
    requires LinkOk(k)
    ensures TermOk(k.term)
  {}

  /** The places outside the right operand of `op`. */
  function Inner(op: BinaryOp, depth: nat, saw: bool, places: nat): nat
  {
    if Level(op) > COMPARE_DEPTH then places + Own(depth, saw) else if Level(op) == COMPARE_DEPTH then places else 0
  }

  lemma NothingTaken(depth: nat, l: Node, saw: bool, links: seq<Link>, places: nat)
    requires InShape(depth, l, saw, links, places) && (links == [] || !Takes(depth, saw, links[0].op))
    ensures Shaped(l) && RootLevel(l) >= depth && Ended(depth, l, links) && Separated(LinksTokens(links), places)
  {
    hide Separated, Reaches, Shaped, LinksTokens;
    if Own(depth, saw) == 1 { LooseLinks(links, places + 1, places); }
  }

  lemma LinkTaken(depth: nat, l: Node, saw: bool, links: seq<Link>, places: nat)
    requires InShape(depth, l, saw, links, places) && links != [] && Takes(depth, saw, links[0].op)
    ensures var op := links[0].op;
            Separated(TermTokens(links[0].term) + LinksTokens(links[1..]), Inner(op, depth, saw, places) + Own(Level(op) + 1, false)) &&
            (Level(op) + 1 < COMPARE_DEPTH ==> Inner(op, depth, saw, places) == 0)
  {
    hide Separated, Reaches, Shaped, LinksTokens, TermTokens;
    LinkSeparated(links, places + Own(depth, saw));
  }

  lemma Grown(depth: nat, l: Node, saw: bool, links: seq<Link>, places: nat, r: Node, rest: seq<Link>)
    requires InShape(depth, l, saw, links, places) && links != [] && Takes(depth, saw, links[0].op)
    requires var op := links[0].op;
             Shaped(r) && RootLevel(r) >= Level(op) + 1 && Ended(Level(op) + 1, r, rest) &&
             Separated(LinksTokens(rest), Inner(op, depth, saw, places)) &&
             Tokens(r) + LinksTokens(rest) == TermTokens(links[0].term) + LinksTokens(links[1..])
    ensures var b := Binary(links[0].op, l, r);
            InShape(depth, b, saw || Level(links[0].op) == COMPARE_DEPTH, rest, places) &&
            Tokens(b) + LinksTokens(rest) == Tokens(l) + LinksTokens(links)
  {
    hide Separated, LinksTokens, TermTokens, Tokens;
    var op := links[0].op;
    if Level(op) < COMPARE_DEPTH {
      NoComparison(rest);
      LooseLinks(rest, 0, places + Own(depth, saw));
    }
    GrownTokens(op, l, r, links, rest);
  }

  lemma NoComparison(links: seq<Link>)
    requires Separated(LinksTokens(links), 0)
    ensures links != [] ==> Level(links[0].op) != COMPARE_DEPTH
  {
    hide TermTokens;
    if links != [] { LinkSeparated(links, 0); }
  }

  lemma GrownTokens(op: BinaryOp, l: Node, r: Node, links: seq<Link>, rest: seq<Link>)
    requires links != [] && links[0].op == op
    requires Tokens(r) + LinksTokens(rest) == TermTokens(links[0].term) + LinksTokens(links[1..])
    ensures Tokens(Binary(op, l, r)) + LinksTokens(rest) == Tokens(l) + LinksTokens(links)
  {
    hide Tokens, TermTokens, LinksTokens;
    BinaryTokens(Binary(op, l, r));
    LinksChain(links);
    Regroup(Tokens(l), [InfixOp(op)], Tokens(r), LinksTokens(rest), ChainTokens(links[0].term, links[1..]));
  }

  lemma Regroup(a: seq<Token>, x: seq<Token>, b: seq<Token>, c: seq<Token>, d: seq<Token>)
    requires b + c == d
    ensures a + x + b + c == a + (x + d)
  {
    assert a + x + b + c == a + (x + (b + c));
  }

  // ---- Every tree in shape is parsed as itself -------------------------------

  /** Whether a loop that built this tree took a comparison itself. */
  predicate Compared(t: Node)
  {
    t.Binary? && (Level(t.bop) == COMPARE_DEPTH || Compared(t.l))
  }

  lemma {:induction false} ComparedLevel(t: Node)
    requires Shaped(t) && Compared(t)
    ensures RootLevel(t) <= COMPARE_DEPTH
  {
    if t.Binary? && Level(t.bop) != COMPARE_DEPTH { ComparedLevel(t.l); }
  }

  /** No loop inside the tree takes what comes next. */
  ghost predicate Parts(t: Node, rest: seq<Link>)
  {
    rest != [] ==> Level(rest[0].op) <= RootLevel(t) && !Reaches(t, rest[0].op)
  }

  /** The link at an operator of the chain. */
  lemma {:induction false} FindLink(first: Term, links: seq<Link>, a: seq<Token>, op: BinaryOp, b: seq<Token>) returns (i: nat)
    requires ChainTokens(first, links) == a + [InfixOp(op)] + b
    ensures i < |links| && links[i].op == op && a == ChainTokens(first, links[..i])
    ensures b == ChainTokens(links[i].term, links[i + 1..])
    decreases |links|
  {
    hide TermTokens;
    var front := TermTokens(first);
    OnlyOperands(first);
    var all := ChainTokens(first, links);
    assert all[|a|] == InfixOp(op);
    Behind(all, front, LinksTokens(links), a, op, b);
    assert links != [] by { assert links == [] ==> all == front; }
    var more := LinksTokens(links);
    assert all == front + more && more == [InfixOp(links[0].op)] + ChainTokens(links[0].term, links[1..]) by { LinksChain(links); }
    if |a| == |front| {
      i := 0;
      assert all[..|a|] == a == front && all[|a|] == more[0] && all[|a| + 1..] == b;
      assert all[|front| + 1..] == ChainTokens(links[0].term, links[1..]);
      assert links[..0] == [] && front + [] == front;
    } else {
      var a' := a[|front| + 1..];
      assert a == front + [InfixOp(links[0].op)] + a' by { SplitAt(all, front, links[0].op, ChainTokens(links[0].term, links[1..]), a, op, b); }
      assert ChainTokens(links[0].term, links[1..]) == a' + [InfixOp(op)] + b by { SplitAt(all, front, links[0].op, ChainTokens(links[0].term, links[1..]), a, op, b); }
      var j := FindLink(links[0].term, links[1..], a', op, b);
      i := j + 1;
      assert links[1..][..j] == links[..i][1..] && links[1..][j + 1..] == links[i + 1..] && links[1..][j] == links[i];
      LinksChain(links[..i]);
      assert front + ([InfixOp(links[0].op)] + a') == front + [InfixOp(links[0].op)] + a';
    }
  }

  lemma Behind(all: seq<Token>, front: seq<Token>, more: seq<Token>, a: seq<Token>, op: BinaryOp, b: seq<Token>)
    requires all == front + more == a + [InfixOp(op)] + b
    requires forall i :: 0 <= i < |front| ==> front[i] != InfixOp(op)
    ensures |front| <= |a|
  {
    assert all[|a|] == InfixOp(op);
  }

  lemma SplitAt(all: seq<Token>, front: seq<Token>, x: BinaryOp, more: seq<Token>, a: seq<Token>, op: BinaryOp, b: seq<Token>)
    requires all == front + ([InfixOp(x)] + more) == a + [InfixOp(op)] + b && |a| > |front|
    ensures var a' := a[|front| + 1..]; a == front + [InfixOp(x)] + a' && more == a' + [InfixOp(op)] + b
  {
    var a' := a[|front| + 1..];
    assert a == all[..|a|];
    assert all[..|front| + 1] == front + [InfixOp(x)];
    assert all[|front| + 1..] == more;
    assert all[|front| + 1..] == a' + [InfixOp(op)] + b;
  }

  lemma LinksChain(links: seq<Link>)
    requires links != []
    ensures LinksTokens(links) == [InfixOp(links[0].op)] + ChainTokens(links[0].term, links[1..])
  {
    hide TermTokens;
  }

  lemma {:induction false} OnlyOperands(t: Term)
    ensures forall i :: 0 <= i < |TermTokens(t)| ==> !TermTokens(t)[i].InfixOp?
    decreases |t.prefixes|
  {
    if t.prefixes != [] { OnlyOperands(Rest(t)); }
  }

  lemma {:induction false} StartComplete(t: Node, first: Term, links: seq<Link>, m: nat)
    requires !t.Binary? && Shaped(t) && m <= |links| && Tokens(t) == ChainTokens(first, links[..m]) && Parts(t, links[m..])
    ensures Start(first, links) == (t, links[m..])
    decreases t, |first.prefixes|, 0
  {
    hide LinksTokens, Climb, Reaches;
    if first.prefixes == [] {
      AtomComplete(t, first, links[..m]);
      assert m == 0 && links[0..] == links;
    } else if first.prefixes[0].sign == Plus {
      StartComplete(t, Rest(first), links, m);
    } else {
      var sign := first.prefixes[0].sign;
      var op := if sign == Minus then Negate else if sign == Tilde then Invert else LogicalNot;
      PrefixComplete(t, op, TermTokens(Rest(first)), LinksTokens(links[..m]));
      if op == LogicalNot {
        NotParts(t, links[m..]);
        ClimbComplete(t.a, COMPARE_DEPTH, Rest(first), links, m);
        NotEnds(t, links[m..]);
      } else {
        SignParts(t, links[m..]);
        StartComplete(t.a, Rest(first), links, m);
      }
    }
  }

  lemma AtomComplete(t: Node, first: Term, links: seq<Link>)
    requires !t.Binary? && first.prefixes == [] && Tokens(t) == ChainTokens(first, links)
    ensures t == first.atom && links == []
  {
    hide TermTokens;
    assert TermTokens(first) == [Leaf(first.atom)] by { AtomTokens(first); }
    assert Tokens(t)[0] == Leaf(first.atom);
    if links != [] { LinksChain(links); }
  }

  lemma AtomTokens(t: Term)
    requires t.prefixes == []
    ensures TermTokens(t) == [Leaf(t.atom)]
  {}

  lemma PrefixComplete(t: Node, op: UnaryOp, a: seq<Token>, b: seq<Token>)
    requires !t.Binary? && Tokens(t) == [PrefixOp(op)] + a + b
    ensures t.Unary? && t.op == op && Tokens(t.a) == a + b
  {
    assert Tokens(t)[0] == PrefixOp(op);
    assert Tokens(t)[1..] == a + b;
  }

  lemma SignParts(t: Node, rest: seq<Link>)
    requires t.Unary? && t.op != LogicalNot && Shaped(t) && Parts(t, rest)
    ensures !t.a.Binary? && Parts(t.a, rest)
  {}

  lemma NotParts(t: Node, rest: seq<Link>)
    requires t.Unary? && t.op == LogicalNot && Shaped(t) && Parts(t, rest)
    ensures Parts(t.a, rest)
  {}

  lemma NotEnds(t: Node, rest: seq<Link>)
    requires t.Unary? && t.op == LogicalNot && Shaped(t) && Parts(t, rest)
    ensures Climb(COMPARE_DEPTH, t.a, Compared(t.a), rest) == (t.a, Compared(t.a), rest)
  {}

  /** A tree in shape is what the loop builds from its own operators and operands. */
  lemma {:induction false} ClimbComplete(t: Node, depth: nat, first: Term, links: seq<Link>, m: nat)
    requires Shaped(t) && RootLevel(t) >= depth && depth <= MEMBER_DEPTH && m <= |links|
    requires Tokens(t) == ChainTokens(first, links[..m]) && Parts(t, links[m..])
    ensures ClimbFrom(depth, first, links) == Climb(depth, t, Compared(t), links[m..])
    decreases t, |first.prefixes|, 1
  {
    hide Climb, Start, ChainTokens, Tokens, Reaches, Parts;
    if !t.Binary? {
      StartComplete(t, first, links, m);
    } else {
      var op, l, r := t.bop, t.l, t.r;
      BinaryTokens(t);
      var i := FindLink(first, links[..m], Tokens(l), op, Tokens(r));
      assert links[..m][..i] == links[..i] && links[..m][i + 1..] == links[i + 1..][..m - i - 1];
      assert links[i..][0] == links[i] && links[i..][1..] == links[i + 1..] && links[i + 1..][m - i - 1..] == links[m..];
      assert links[..m][i] == links[i];
      BinaryParts(t, links[i..], links[m..]);
      ClimbComplete(l, depth, first, links, i);
      ClimbComplete(r, Level(op) + 1, links[i].term, links[i + 1..], m - i - 1);
      TakesRoot(t, depth, links[i..], links[m..]);
    }
  }

  lemma BinaryTokens(t: Node)
    requires t.Binary?
    ensures Tokens(t) == Tokens(t.l) + [InfixOp(t.bop)] + Tokens(t.r)
  {}

  lemma BinaryParts(t: Node, links: seq<Link>, rest: seq<Link>)
    requires t.Binary? && Shaped(t) && Parts(t, rest) && links != [] && links[0].op == t.bop
    ensures Parts(t.l, links) && Parts(t.r, rest)
  {}

  /** The loop that built the left child takes the root, and its right operand ends in time. */
  lemma TakesRoot(t: Node, depth: nat, links: seq<Link>, rest: seq<Link>)
    requires t.Binary? && Shaped(t) && depth <= RootLevel(t) && Parts(t, rest) && links != [] && links[0].op == t.bop
    requires ClimbFrom(Level(t.bop) + 1, links[0].term, links[1..]) == Climb(Level(t.bop) + 1, t.r, Compared(t.r), rest)
    ensures Climb(depth, t.l, Compared(t.l), links) == Climb(depth, t, Compared(t), rest)
  {
    hide ClimbFrom, Reaches;
    if Compared(t.l) && Level(t.bop) == COMPARE_DEPTH { ComparedLevel(t.l); }
    assert Climb(Level(t.bop) + 1, t.r, Compared(t.r), rest) == (t.r, Compared(t.r), rest);
  }

  // ---- In a tree every comparison has a place --------------------------------

  function PlacesAfter(tokens: seq<Token>, places: nat): nat
    requires Separated(tokens, places)
  {
    if tokens == [] then places
    else
      match tokens[0]
      case Leaf(_) => PlacesAfter(tokens[1..], places)
      case PrefixOp(op) => PlacesAfter(tokens[1..], if op == LogicalNot then places + 1 else places)
      case InfixOp(op) =>
        PlacesAfter(tokens[1..], if Level(op) == COMPARE_DEPTH then places - 1 else if Level(op) < COMPARE_DEPTH then 1 else places)
  }

  lemma {:induction false} SeparatedConcat(a: seq<Token>, b: seq<Token>, places: nat)
    requires Separated(a, places) && Separated(b, PlacesAfter(a, places))
    ensures Separated(a + b, places) && PlacesAfter(a + b, places) == PlacesAfter(b, PlacesAfter(a, places))
  {
    if a == [] {
      assert a + b == b;
    } else {
      assert (a + b)[1..] == a[1..] + b && (a + b)[0] == a[0];
      match a[0] {
        case Leaf(_) => SeparatedConcat(a[1..], b, places);
        case PrefixOp(op) => SeparatedConcat(a[1..], b, if op == LogicalNot then places + 1 else places);
        case InfixOp(op) =>
          SeparatedConcat(a[1..], b, if Level(op) == COMPARE_DEPTH then places - 1 else if Level(op) < COMPARE_DEPTH then 1 else places);
      }
    }
  }

  lemma OneToken(x: Token, places: nat)
    requires x.InfixOp? && Level(x.op) == COMPARE_DEPTH ==> places > 0
    ensures Separated([x], places)
    ensures PlacesAfter([x], places) ==
            match x
            case Leaf(_) => places
            case PrefixOp(op) => if op == LogicalNot then places + 1 else places
            case InfixOp(op) => if Level(op) == COMPARE_DEPTH then places - 1 else if Level(op) < COMPARE_DEPTH then 1 else places
  {
    assert [x][1..] == [];
  }

  lemma {:induction false} ShapedIsSeparated(t: Node, places: nat)
    requires Shaped(t) && (RootLevel(t) <= COMPARE_DEPTH ==> places > 0)
    ensures Separated(Tokens(t), places)
    ensures RootLevel(t) >= COMPARE_DEPTH ==> PlacesAfter(Tokens(t), places) >= places - if RootLevel(t) == COMPARE_DEPTH then 1 else 0
  {
    hide Separated, PlacesAfter, Level;
    match t {
      case Binary(op, l, r) =>
        ShapedIsSeparated(l, places);
        var after := PlacesAfter(Tokens(l), places);
        OneToken(InfixOp(op), after);
        var behind := PlacesAfter([InfixOp(op)], after);
        ShapedIsSeparated(r, behind);
        SeparatedConcat([InfixOp(op)], Tokens(r), after);
        SeparatedConcat(Tokens(l), [InfixOp(op)] + Tokens(r), places);
        assert Tokens(t) == Tokens(l) + ([InfixOp(op)] + Tokens(r));
      case Unary(op, a) =>
        OneToken(PrefixOp(op), places);
        ShapedIsSeparated(a, PlacesAfter([PrefixOp(op)], places));
        SeparatedConcat([PrefixOp(op)], Tokens(a), places);
      case _ => OneToken(Leaf(t), places);
    }
  }

  // ---- The theorems --------------------------------------------------------

  /** A chain with whitespace around it. */
  datatype Chain = Chain(lead: string, first: Term, links: seq<Link>, trail: string)

  ghost predicate ChainOk(c: Chain)
  {
    Blank(c.lead) && TermOk(c.first) && LinksOk(c.links) && Blank(c.trail)
  }

  function ChainText(c: Chain, u: string): string
  {
    c.lead + TermText(c.first, LinksText(c.links, c.trail + u))
  }

  /** The operators and operands of the chain are those of the tree, and it is in shape. */
  ghost predicate Spells(c: Chain, t: Node)
  {
    Shaped(t) && Tokens(t) == ChainTokens(c.first, c.links)
  }

  lemma EndOfChain(trail: string, u: string)
    requires Blank(trail) && (u == "" || u[0] in {')', ']', ',', '?'} || (u[0] == ':' && !(|u| > 1 && u[1] == ':')))
    ensures EndOk(trail + u) && SkipWhitespace(trail + u) == u
  {
    hide SkipWhitespace;
    SkipBlank(trail, u);
    SkipNothing(u);
    if trail == "" {
      assert trail + u == u;
    } else {
      assert (trail + u)[0] == trail[0];
    }
  }

  /** In front of text that closes an expression, a chain is read as any tree in shape that it
      spells; the loop stands behind the chain. */
  lemma SpelledParses(depth: nat, c: Chain, t: Node, u: string)
    requires ChainOk(c) && Spells(c, t) && depth <= OR_DEPTH && (depth > TERNARY_DEPTH ==> RootLevel(t) >= depth)
    requires u == "" || u[0] in {')', ']', ',', '?'} || (u[0] == ':' && !(|u| > 1 && u[1] == ':'))
    ensures Parse(depth, ChainText(c, u)) == Tail(depth, t, Compared(t), u)
  {
    hide Parse, Tail, Shaped, Tokens, LinksText, TermText, EndOk, Climb, ClimbFrom;
    var end := c.trail + u;
    EndOfChain(c.trail, u);
    ParseSkips(depth, c.lead, TermText(c.first, LinksText(c.links, end)));
    assert c.links[..|c.links|] == c.links && c.links[|c.links|..] == [];
    ClimbComplete(t, depth, c.first, c.links, |c.links|);
    ParseIsClimb(depth, c.first, c.links, end);
    assert Climb(depth, t, Compared(t), []) == (t, Compared(t), []) by { NothingLeft(depth, t); }
    assert LinksText([], end) == end by { NoText(end); }
    TailSkips(depth, t, Compared(t), end);
  }

  lemma NothingLeft(depth: nat, t: Node)
    ensures Climb(depth, t, Compared(t), []) == (t, Compared(t), [])
  {}

  lemma NoText(u: string)
    ensures LinksText([], u) == u
  {}

  lemma ChainStarts(c: Chain, u: string)
    requires ChainOk(c)
    ensures ChainText(c, u) != ""
  {
    hide TermText;
    TermStarts(c.first, LinksText(c.links, c.trail + u));
  }

  /** A chain with any prefixes and any whitespace parses to the tree of the precedence table
      that it spells: there is no other. */
  lemma PrecedenceAndAssociativity(c: Chain, t: Node)
    requires ChainOk(c) && Spells(c, t)
    ensures ParseExpr(ChainText(c, "")) == Expression(t)
  {
    hide Parse, Tail, Shaped, Tokens, ChainText;
    ChainStarts(c, "");
    SpelledParses(0, c, t, "");
    TailStops(0, t, Compared(t), "");
  }

  lemma ShapedUnique(c: Chain, a: Node, b: Node)
    requires ChainOk(c) && Spells(c, a) && Spells(c, b)
    ensures a == b
  {
    hide ParseExpr, Spells, ChainOk, ChainText;
    PrecedenceAndAssociativity(c, a);
    PrecedenceAndAssociativity(c, b);
  }

  /** There is such a tree, and the parser finds it, exactly when every comparison has a place. */
  lemma ChainShapedIff(c: Chain)
    requires ChainOk(c)
    ensures (exists t :: Spells(c, t) && ParseExpr(ChainText(c, "")) == Expression(t)) <==> Separated(ChainTokens(c.first, c.links), 1)
  {
    hide ParseExpr, Shaped, Tokens, ChainText, ClimbFrom, Separated, TermTokens, LinksTokens;
    if Separated(ChainTokens(c.first, c.links), 1) {
      ClimbFromShaped(0, c.first, c.links, 0);
      var (t, _, rest) := ClimbFrom(0, c.first, c.links);
      NoComparison(rest);
      assert rest == [];
      assert LinksTokens([]) == [] by { NoTokens(); }
      assert Tokens(t) + [] == Tokens(t);
      PrecedenceAndAssociativity(c, t);
    }
    if exists t :: Spells(c, t) && ParseExpr(ChainText(c, "")) == Expression(t) {
      var t :| Spells(c, t) && ParseExpr(ChainText(c, "")) == Expression(t);
      ShapedIsSeparated(t, 1);
    }
  }

  /** A chain of two operands, the first behind a prefix. */
  function Pair(sign: Sign, a: Node, op: BinaryOp, b: Node): Chain
  {
    Chain("", Term([Prefix(sign, " ")], a), [Link(" ", op, " ", Term([], b))], "")
  }

  lemma PairTokens(sign: Sign, a: Node, op: BinaryOp, b: Node)
    requires Operand(a) && Operand(b)
    ensures ChainOk(Pair(sign, a, op, b))
    ensures ChainTokens(Pair(sign, a, op, b).first, Pair(sign, a, op, b).links) ==
            (match sign case Minus => [PrefixOp(Negate)] case Tilde => [PrefixOp(Invert)] case Not => [PrefixOp(LogicalNot)] case Plus => [])
            + [Leaf(a), InfixOp(op), Leaf(b)]
  {
    hide Operand;
    var c := Pair(sign, a, op, b);
    assert Rest(c.first) == Term([], a) by { assert c.first.prefixes[1..] == []; }
    AtomTokens(Term([], a));
    AtomTokens(Term([], b));
    assert c.links[1..] == [] && LinksTokens([]) == [];
    assert LinksTokens(c.links) == [InfixOp(op)] + [Leaf(b)] + [];
    assert PrefixOk(c.first.prefixes[0]);
    match sign {
      case Minus => assert TermTokens(c.first) == [PrefixOp(Negate)] + [Leaf(a)];
      case Tilde => assert TermTokens(c.first) == [PrefixOp(Invert)] + [Leaf(a)];
      case Not => assert TermTokens(c.first) == [PrefixOp(LogicalNot)] + [Leaf(a)];
      case Plus => assert TermTokens(c.first) == [] + [Leaf(a)];
    }
  }

  /** `- a + b` negates `a` alone, `not a == b` negates the comparison, and `+` disappears. */
  lemma PrefixReach(a: Node, b: Node)
    requires Operand(a) && Operand(b)
    ensures ParseExpr(ChainText(Pair(Minus, a, Add, b), "")) == Expression(Binary(Add, Unary(Negate, a), b))
    ensures ParseExpr(ChainText(Pair(Not, a, Equal, b), "")) == Expression(Unary(LogicalNot, Binary(Equal, a, b)))
    ensures ParseExpr(ChainText(Pair(Plus, a, Mult, b), "")) == Expression(Binary(Mult, a, b))
  {
    hide ParseExpr, Operand, ChainText, ChainTokens, Pair;
    OperandTokens(a);
    OperandTokens(b);
    PairTokens(Minus, a, Add, b);
    PairTokens(Not, a, Equal, b);
    PairTokens(Plus, a, Mult, b);
    assert Shaped(Unary(Negate, a)) && !Reaches(Unary(Negate, a), Add) && Shaped(Binary(Equal, a, b));
    assert Tokens(Binary(Add, Unary(Negate, a), b)) == [PrefixOp(Negate)] + [Leaf(a), InfixOp(Add), Leaf(b)];
    assert Tokens(Unary(LogicalNot, Binary(Equal, a, b))) == [PrefixOp(LogicalNot)] + [Leaf(a), InfixOp(Equal), Leaf(b)];
    assert Tokens(Binary(Mult, a, b)) == [] + [Leaf(a), InfixOp(Mult), Leaf(b)];
    PrecedenceAndAssociativity(Pair(Minus, a, Add, b), Binary(Add, Unary(Negate, a), b));
    PrecedenceAndAssociativity(Pair(Not, a, Equal, b), Unary(LogicalNot, Binary(Equal, a, b)));
    PrecedenceAndAssociativity(Pair(Plus, a, Mult, b), Binary(Mult, a, b));
  }

  lemma OperandTokens(n: Node)
    requires Operand(n)
    ensures Tokens(n) == [Leaf(n)] && Shaped(n) && RootLevel(n) == PRIMARY_DEPTH && forall op :: !Reaches(n, op)
  {}

  lemma NoTokens()
    ensures LinksTokens([]) == []
  {}

  /** Behind an `and`, a second comparison in a row is taken by the outer loop, which has
      seen none: the conjunction becomes its left operand. */
  lemma ChainedComparisonEscapes(a: Node, b: Node, c: Node, d: Node)
    requires Operand(a) && Operand(b) && Operand(c) && Operand(d)
    ensures var links := [Link(" ", LogicalAnd, " ", Term([], b)), Link(" ", Equal, " ", Term([], c)), Link(" ", Equal, " ", Term([], d))];
            ParseExpr(ChainText(Chain("", Term([], a), links, ""), "")) ==
            Expression(Binary(Equal, Binary(LogicalAnd, a, Binary(Equal, b, c)), d))
  {
    hide Operand, ParseExpr, ChainText;
    var l1, l2, l3 := Link(" ", LogicalAnd, " ", Term([], b)), Link(" ", Equal, " ", Term([], c)), Link(" ", Equal, " ", Term([], d));
    var links := [l1, l2, l3];
    assert links[1..] == [l2, l3] && [l2, l3][1..] == [l3] && [l3][1..] == [];
    var t := Binary(Equal, b, c);
    var u := Binary(LogicalAnd, a, t);
    assert ClimbFrom(BIT_OR_DEPTH, l2.term, [l3]) == (c, false, [l3]);
    assert Climb(COMPARE_DEPTH, t, true, [l3]) == (t, true, [l3]);
    assert ClimbFrom(COMPARE_DEPTH, l1.term, [l2, l3]) == (t, true, [l3]);
    assert ClimbFrom(BIT_OR_DEPTH, l3.term, []) == (d, false, []);
    assert Climb(0, Binary(Equal, u, d), true, []) == (Binary(Equal, u, d), true, []);
    assert Climb(0, u, false, [l3]) == (Binary(Equal, u, d), true, []);
    assert ClimbFrom(0, Term([], a), links) == (Binary(Equal, u, d), true, []);
    ClimbedParses(Chain("", Term([], a), links, ""));
  }

  /** What the parser makes of any chain, if all its links are taken. */
  lemma ClimbedParses(c: Chain)
    requires ChainOk(c)
    ensures var (t, _, rest) := ClimbFrom(0, c.first, c.links);
            rest == [] ==> ParseExpr(ChainText(c, "")) == Expression(t)
  {
    hide Parse, Tail, LinksText, TermText, EndOk, ClimbFrom;
    var end := c.trail + "";
    var (t, saw, rest) := ClimbFrom(0, c.first, c.links);
    EndOfChain(c.trail, "");
    ChainStarts(c, "");
    ParseSkips(0, c.lead, TermText(c.first, LinksText(c.links, end)));
    ParseIsClimb(0, c.first, c.links, end);
    if rest == [] {
      assert LinksText([], end) == end by { NoText(end); }
      TailSkips(0, t, saw, end);
      TailStops(0, t, saw, "");
    }
  }
}
