/** The parser undoes the printer. */
module ExprRoundTrip {
  import opened ExprAst
  import opened ExprGrammar
  import opened Options

  // ---- Trees that print readably -----------------------------------------

  predicate AllIdent(s: string)
  {
    forall i :: 0 <= i < |s| ==> IsIdent(s[i])
  }

  /** An identifier that is not read as something else. */
  predicate IsName(s: string)
  {
    s != "" && IsIdentStart(s[0]) && AllIdent(s) && s !in {"not", "true", "false"}
  }

  predicate IsTypeName(s: string)
  {
    forall i :: 0 <= i < |s| ==> InTypeName(s[i])
  }

  /** Primary and postfix nodes: they print without outer operators. */
  predicate Atom(n: Node)
  {
    !n.Unary? && !n.Binary? && !n.Ternary?
  }

  /** After an integer literal a point must not look like part of the literal. */
  predicate PointOk(n: Node, next: string)
  {
    n.Int? ==> next != "" && IsIdentStart(next[0]) && next[0] !in {'e', 'E'}
  }

  predicate WellFormed(n: Node)
  {
    match n
    case Ident(name) => IsName(name)
    case Int(_) => true
    case Bool(_) => true
    case Array(items) => forall i :: 0 <= i < |items| ==> WellFormed(items[i])
    case Call(obj, args) => Atom(obj) && WellFormed(obj) && forall i :: 0 <= i < |args| ==> WellFormed(args[i])
    case Cast(operand, ty) => Atom(operand) && WellFormed(operand) && IsTypeName(ty)
    case Sizeof(ty) => IsTypeName(ty)
    case BitSizeof(ty) => IsTypeName(ty)
    case Unary(_, a) => WellFormed(a)
    case Binary(_, l, r) => WellFormed(l) && WellFormed(r)
    case Ternary(c, t, e) => WellFormed(c) && WellFormed(t) && WellFormed(e)
    case Scope(operand, ty) => Atom(operand) && WellFormed(operand) && AllIdent(ty)
    case Member(operand, prop) => Atom(operand) && WellFormed(operand) && AllIdent(prop) && PointOk(operand, prop)
    case Subscript(arr, index) => Atom(arr) && WellFormed(arr) && WellFormed(index)
  }

  /** Trees whose names, type names and properties are lexed as such: no condition on
      operands. Only such trees come out of the parser. */
  predicate Lexical(n: Node)
  {
    match n
    case Ident(name) => IsName(name)
    case Int(_) => true
    case Bool(_) => true
    case Array(items) => forall i :: 0 <= i < |items| ==> Lexical(items[i])
    case Call(obj, args) => Lexical(obj) && forall i :: 0 <= i < |args| ==> Lexical(args[i])
    case Cast(operand, ty) => Lexical(operand) && IsTypeName(ty)
    case Sizeof(ty) => IsTypeName(ty)
    case BitSizeof(ty) => IsTypeName(ty)
    case Unary(_, a) => Lexical(a)
    case Binary(_, l, r) => Lexical(l) && Lexical(r)
    case Ternary(c, t, e) => Lexical(c) && Lexical(t) && Lexical(e)
    case Scope(operand, ty) => Lexical(operand) && AllIdent(ty)
    case Member(operand, prop) => Lexical(operand) && AllIdent(prop)
    case Subscript(arr, index) => Lexical(arr) && Lexical(index)
  }

  // ---- What printed trees are read as --------------------------------------

  /** The innermost operand of a chain of postfix nodes. */
  function Base(n: Node): (b: Node)
    ensures b == n || (n decreases to b)
    ensures !b.Call? && !b.Cast? && !b.Scope? && !b.Member? && !b.Subscript?
  {
    match n
    case Call(obj, _) => Base(obj)
    case Cast(operand, _) => Base(operand)
    case Scope(operand, _) => Base(operand)
    case Member(operand, _) => Base(operand)
    case Subscript(arr, _) => Base(arr)
    case _ => n
  }

  /** What is printed behind the base. */
  function PostText(n: Node): string
  {
    match n
    case Call(obj, args) => PostText(obj) + ("(" + PrintList(args) + ")")
    case Cast(operand, ty) => PostText(operand) + (".as<" + ty + ">")
    case Scope(operand, ty) => PostText(operand) + ("::" + ty)
    case Member(operand, prop) => PostText(operand) + ("." + prop)
    case Subscript(arr, index) => PostText(arr) + ("[" + Print(index) + "]")
    case _ => ""
  }

  /** An integer literal in front of this text is read as a floating point literal. */
  predicate Pointed(b: Node, text: string)
  {
    b.Int? && text != "" && text[0] == '.' && !PointOk(b, text[1..])
  }

  /** The tree that a printed tree is read as: the postfix operators printed behind a unary,
      binary or ternary node go to its last operand. No tree of the model results if an
      integer literal and the property behind it make a floating point literal. */
  function Reread(n: Node): Option<Node>
    decreases n, 1
  {
    match Base(n)
    case Unary(op, a) =>
      var a' := Reread(a);
      if a'.None? then None else
      var x := Rebuilt(n, a'.value);
      if x.None? then None else Some(Unary(op, x.value))
    case Binary(op, l, r) =>
      var l', r' := Reread(l), Reread(r);
      if l'.None? || r'.None? then None else
      var x := Rebuilt(n, r'.value);
      if x.None? then None else Some(Binary(op, l'.value, x.value))
    case Ternary(c, t, e) =>
      var c', t', e' := Reread(c), Reread(t), Reread(e);
      if c'.None? || t'.None? || e'.None? then None else
      var x := Rebuilt(n, e'.value);
      if x.None? then None else Some(Ternary(c'.value, t'.value, x.value))
    case Array(items) =>
      var items' := RereadAll(items);
      if items'.None? then None else Rebuilt(n, Array(items'.value))
    case b =>
      if Pointed(b, PostText(n)) then None else Rebuilt(n, b)
  }

  /** The postfix operators of `n` on another base. */
  function Rebuilt(n: Node, x: Node): Option<Node>
    decreases n, 0
  {
    match n
    case Call(obj, args) =>
      var o, args' := Rebuilt(obj, x), RereadAll(args);
      if o.None? || args'.None? then None else Some(Call(o.value, args'.value))
    case Cast(operand, ty) =>
      var o := Rebuilt(operand, x);
      if o.None? then None else Some(Cast(o.value, ty))
    case Scope(operand, ty) =>
      var o := Rebuilt(operand, x);
      if o.None? then None else Some(Scope(o.value, ty))
    case Member(operand, prop) =>
      var o := Rebuilt(operand, x);
      if o.None? then None else Some(Member(o.value, prop))
    case Subscript(arr, index) =>
      var o, i := Rebuilt(arr, x), Reread(index);
      if o.None? || i.None? then None else Some(Subscript(o.value, i.value))
    case _ => Some(x)
  }

  function RereadAll(items: seq<Node>): (r: Option<seq<Node>>)
    ensures r.Some? ==> |r.value| == |items|
    decreases items, 0
  {
    if items == [] then Some([]) else
    var first := Reread(items[0]);
    if first.None? then None else
    var rest := RereadAll(items[1..]);
    if rest.None? then None else Some([first.value] + rest.value)
  }

  // ---- The last operator of a chain ----------------------------------------

  predicate Postfix(n: Node)
  {
    n.Call? || n.Cast? || n.Scope? || n.Member? || n.Subscript?
  }

  function Inner(n: Node): (o: Node)
    requires Postfix(n)
    ensures n decreases to o
  {
    match n
    case Call(obj, _) => obj
    case Cast(operand, _) => operand
    case Scope(operand, _) => operand
    case Member(operand, _) => operand
    case Subscript(arr, _) => arr
  }

  function LastText(n: Node): (t: string)
    requires Postfix(n)
  {
    match n
    case Call(_, args) => "(" + PrintList(args) + ")"
    case Cast(_, ty) => ".as<" + ty + ">"
    case Scope(_, ty) => "::" + ty
    case Member(_, prop) => "." + prop
    case Subscript(_, index) => "[" + Print(index) + "]"
  }

  /** The last operator on another operand. */
  function OnOperand(n: Node, o: Node): Option<Node>
    requires Postfix(n)
  {
    match n
    case Call(_, args) => (match RereadAll(args) case Some(args') => Some(Call(o, args')) case None => None)
    case Cast(_, ty) => Some(Cast(o, ty))
    case Scope(_, ty) => Some(Scope(o, ty))
    case Member(_, prop) => Some(Member(o, prop))
    case Subscript(_, index) => (match Reread(index) case Some(i) => Some(Subscript(o, i)) case None => None)
  }

  lemma ChainParts(n: Node)
    requires Postfix(n)
    ensures Base(n) == Base(Inner(n)) && Print(n) == Print(Inner(n)) + LastText(n)
    ensures PostText(n) == PostText(Inner(n)) + LastText(n)
    ensures LastText(n) != "" && LastText(n)[0] in {'.', '(', '[', ':'} && Follows(LastText(n))
  {
    hide Print, PrintList, PostText, Base;
    PrintParts(n);
    PostTextParts(n);
  }

  lemma PrintParts(n: Node)
    requires Postfix(n)
    ensures Print(n) == Print(Inner(n)) + LastText(n)
  {
    hide PrintList, Decimal, OpText, PostText;
    match n {
      case Call(obj, args) => Joined3(Print(obj), "(", PrintList(args), ")");
      case Cast(operand, ty) => Joined3(Print(operand), ".as<", ty, ">");
      case Subscript(arr, index) => Joined3(Print(arr), "[", Print(index), "]");
      case Scope(operand, ty) => Reassociate(Print(operand), "::", ty);
      case Member(operand, prop) => Reassociate(Print(operand), ".", prop);
    }
  }

  lemma Joined3(a: string, b: string, c: string, d: string)
    ensures a + b + c + d == a + (b + c + d)
  {}

  lemma Reassociate(a: string, b: string, c: string)
    ensures a + b + c == a + (b + c)
  {}

  lemma PostTextParts(n: Node)
    requires Postfix(n)
    ensures PostText(n) == PostText(Inner(n)) + LastText(n) && Base(n) == Base(Inner(n))
  {
    hide Print, PrintList;
  }

  lemma RebuiltParts(n: Node, x: Node)
    ensures !Postfix(n) ==> Rebuilt(n, x) == Some(x) && PostText(n) == "" && Base(n) == n
    ensures Postfix(n) ==>
      Rebuilt(n, x) == match Rebuilt(Inner(n), x) case Some(o) => OnOperand(n, o) case None => None
  {
    hide Reread, RereadAll, Print, PrintList;
  }

  // ---- Well-formed trees are those read as themselves ----------------------

  /** The arguments in a chain of postfix nodes are well-formed. */
  predicate ArgumentsOk(n: Node)
  {
    match n
    case Call(obj, args) => ArgumentsOk(obj) && forall i :: 0 <= i < |args| ==> WellFormed(args[i])
    case Cast(operand, _) => ArgumentsOk(operand)
    case Scope(operand, _) => ArgumentsOk(operand)
    case Member(operand, _) => ArgumentsOk(operand)
    case Subscript(arr, index) => ArgumentsOk(arr) && WellFormed(index)
    case _ => true
  }

  lemma {:induction false} PostStarts(n: Node, u: string)
    requires PostText(n) != ""
    ensures (PostText(n) + u)[0] in {'.', '(', '[', ':'}
    ensures PostText(n)[0] == ':' ==> |PostText(n)| > 1 && PostText(n)[1] == ':'
  {
    hide Print, PrintList;
    match n {
      case Call(obj, _) => if PostText(obj) != "" { PostStarts(obj, u); }
      case Cast(operand, _) => if PostText(operand) != "" { PostStarts(operand, u); }
      case Scope(operand, _) => if PostText(operand) != "" { PostStarts(operand, u); }
      case Member(operand, _) => if PostText(operand) != "" { PostStarts(operand, u); }
      case Subscript(arr, _) => if PostText(arr) != "" { PostStarts(arr, u); }
    }
  }

  /** A chain is well-formed if its arguments are and its base is a primary node that does
      not swallow the point behind it. */
  lemma {:induction false} WellFormedChain(n: Node)
    requires Lexical(n) && Atom(n)
    ensures WellFormed(n) <==>
            ArgumentsOk(n) && Atom(Base(n)) && !Pointed(Base(n), PostText(n)) && WellFormed(Base(n))
    decreases n, 0
  {
    hide Print, PrintList;
    match n {
      case Call(obj, args) => ChainStep(obj, "(" + PrintList(args) + ")");
      case Cast(operand, ty) => ChainStep(operand, ".as<" + ty + ">");
      case Scope(operand, ty) => ChainStep(operand, "::" + ty);
      case Member(operand, prop) => ChainStep(operand, "." + prop);
      case Subscript(arr, index) => ChainStep(arr, "[" + Print(index) + "]");
      case _ =>
    }
  }

  /** One more postfix operator with this text. */
  lemma {:induction false} ChainStep(o: Node, text: string)
    requires Lexical(o) && text != "" && text[0] in {'.', '(', '[', ':'}
    ensures Atom(o) && WellFormed(o) && (o.Int? ==> !Pointed(o, text)) <==>
            ArgumentsOk(o) && Atom(Base(o)) && !Pointed(Base(o), PostText(o) + text) && WellFormed(Base(o))
    decreases o, 1
  {
    if Atom(o) {
      WellFormedChain(o);
      if PostText(o) != "" { PostStarts(o, text); }
      assert PostText(o) == "" ==> PostText(o) + text == text;
    }
  }

  lemma {:induction false} RebuiltSame(n: Node, x: Node)
    requires Lexical(n)
    ensures Rebuilt(n, x) == Some(n) <==> x == Base(n) && ArgumentsOk(n)
    decreases n, 0
  {
    hide Print, PostText, WellFormed, Lexical;
    LexicalParts(n);
    match n {
      case Call(obj, args) =>
        RebuiltSame(obj, x);
        AllRereadSame(args);
      case Cast(operand, _) => RebuiltSame(operand, x);
      case Scope(operand, _) => RebuiltSame(operand, x);
      case Member(operand, _) => RebuiltSame(operand, x);
      case Subscript(arr, index) =>
        RebuiltSame(arr, x);
        RereadSame(index);
      case _ =>
    }
  }

  lemma {:induction false} AllRereadSame(items: seq<Node>)
    requires forall i :: 0 <= i < |items| ==> Lexical(items[i])
    ensures RereadAll(items) == Some(items) <==> forall i :: 0 <= i < |items| ==> WellFormed(items[i])
    decreases items, 0
  {
    hide WellFormed, Lexical, Reread;
    if items != [] {
      RereadSame(items[0]);
      AllRereadSame(items[1..]);
      assert items == [items[0]] + items[1..];
      assert forall i :: 1 <= i < |items| ==> items[i] == items[1..][i - 1];
    }
  }

  lemma LexicalParts(n: Node)
    requires Lexical(n)
    ensures n.Call? ==> Lexical(n.obj) && forall i :: 0 <= i < |n.args| ==> Lexical(n.args[i])
    ensures n.Cast? || n.Scope? || n.Member? ==> Lexical(n.operand)
    ensures n.Subscript? ==> Lexical(n.arr) && Lexical(n.index)
    ensures n.Array? ==> forall i :: 0 <= i < |n.items| ==> Lexical(n.items[i])
    ensures n.Unary? ==> Lexical(n.a)
    ensures n.Binary? ==> Lexical(n.l) && Lexical(n.r)
    ensures n.Ternary? ==> Lexical(n.c) && Lexical(n.t) && Lexical(n.e)
  {}

  lemma {:induction false} LexicalBase(n: Node)
    requires Lexical(n)
    ensures Lexical(Base(n)) && (!Atom(n) ==> Base(n) == n)
  {
    match n {
      case Call(obj, _) => LexicalBase(obj);
      case Cast(operand, _) => LexicalBase(operand);
      case Scope(operand, _) => LexicalBase(operand);
      case Member(operand, _) => LexicalBase(operand);
      case Subscript(arr, _) => LexicalBase(arr);
      case _ =>
    }
  }

  /** The well-formed trees are exactly those that are read as themselves. */
  lemma {:induction false} RereadSame(n: Node)
    requires Lexical(n)
    ensures Reread(n) == Some(n) <==> WellFormed(n)
    decreases n, 1
  {
    hide Rebuilt, PostText, Lexical, RereadAll, ArgumentsOk, Pointed;
    var b := Base(n);
    LexicalBase(n);
    LexicalParts(b);
    if Atom(b) {
      assert Atom(n);
      WellFormedChain(n);
      RebuiltSame(n, b);
      if b.Array? {
        AllRereadSame(b.items);
        var items' := RereadAll(b.items);
        if items'.Some? { RebuiltSame(n, Array(items'.value)); }
        assert !Pointed(b, PostText(n)) by { NotPointed(b, PostText(n)); }
      } else {
        assert WellFormed(b) by { PrimaryOk(b); }
      }
    } else if n != b {
      OperatorChain(n);
    } else {
      RereadOperator(n);
    }
  }

  lemma NotPointed(b: Node, text: string)
    requires !b.Int?
    ensures !Pointed(b, text)
  {}

  lemma PrimaryOk(b: Node)
    requires Lexical(b) && Base(b) == b && Atom(b) && !b.Array?
    ensures WellFormed(b)
  {}

  /** Postfix operators printed behind an operator node are never read back as such. */
  lemma OperatorChain(n: Node)
    requires Lexical(n) && n != Base(n) && !Atom(Base(n))
    ensures Reread(n) != Some(n) && !WellFormed(n)
  {
    hide Rebuilt, PostText, Lexical, WellFormed;
    assert Atom(n);
    WellFormedChain(n);
  }

  lemma {:induction false} RereadOperator(n: Node)
    requires Lexical(n) && n == Base(n) && !Atom(n)
    ensures Reread(n) == Some(n) <==> WellFormed(n)
    decreases n, 0
  {
    hide PostText, Lexical;
    LexicalParts(n);
    match n {
      case Unary(_, a) => RereadSame(a);
      case Binary(_, l, r) => RereadSame(l); RereadSame(r);
      case Ternary(c, t, e) => RereadSame(c); RereadSame(t); RereadSame(e);
    }
  }

  // ---- What may follow ---------------------------------------------------

  /** Text that ends an expression. */
  predicate Stop(u: string)
  {
    u == "" || u[0] in {')', ']', ','}
  }

  /** Text that ends an atom: the end of the expression, whitespace, or an operator. */
  predicate Follows(u: string)
  {
    Stop(u) || IsWhitespace(u[0]) || u[0] in {'.', '(', '[', ':'} ||
    u[0] in {'*', '/', '%', '+', '-', '>', '&', '^', '|', '=', '!', '?'}
  }

  predicate FollowsAtom(n: Node, u: string)
  {
    Follows(u) && (u != "" && u[0] == '.' ==> PointOk(n, u[1..]))
  }

  // ---- Lexing what was printed -------------------------------------------

  lemma {:induction false} SpanOver(test: char -> bool, a: string, u: string)
    requires (forall i :: 0 <= i < |a| ==> test(a[i])) && (u != "" ==> !test(u[0]))
    ensures Span(test, a + u) == |a| && (a + u)[..|a|] == a && (a + u)[|a|..] == u
  {
    if a == "" {
      assert a + u == u;
    } else {
      assert (a + u)[1..] == a[1..] + u;
      SpanOver(test, a[1..], u);
    }
  }

  lemma SkipNothing(s: string)
    requires s == "" || !IsWhitespace(s[0])
    ensures SkipWhitespace(s) == s
  {}

  lemma SkipSpace(s: string)
    requires s == "" || !IsWhitespace(s[0])
    ensures SkipWhitespace(" " + s) == s
  {
    SpanOver(IsWhitespace, " ", s);
  }

  lemma ParseAfterSpace(depth: nat, s: string)
    requires s != "" && !IsWhitespace(s[0])
    ensures Parse(depth, " " + s) == Parse(depth, s)
  {
    hide Primary, Tail;
    SkipSpace(s);
    SkipNothing(s);
  }

  lemma {:induction false} DecimalDigits(n: nat)
    ensures forall i :: 0 <= i < |Decimal(n)| ==> IsDigit(Decimal(n)[i])
    ensures |Decimal(n)| > 1 ==> Decimal(n)[0] != '0'
    ensures Decimal(n)[0] == '0' ==> n == 0
    ensures Numeral(Decimal(n), 10) == Ok(n, "")
  {
    if n >= 10 {
      DecimalDigits(n / 10);
      var s := Decimal(n);
      assert s[..|s| - 1] == Decimal(n / 10);
    }
  }

  lemma {:induction false} NoUnderscores(s: string)
    requires forall i :: 0 <= i < |s| ==> s[i] != '_'
    ensures WithoutUnderscores(s) == s
  {
    if s != "" { NoUnderscores(s[1..]); }
  }

  lemma NumberOfDecimal(n: nat, u: string)
    requires FollowsAtom(Int(n), u)
    ensures Number(Decimal(n) + u) == Ok(Int(n), u)
  {
    hide Decimal, Numeral, Prefixed, Span, WithoutUnderscores;
    var d := Decimal(n);
    DecimalDigits(n);
    SpanOver(IsNumber, d, u);
    NoUnderscores(d);
  }

  lemma TypeArgumentOf(ty: string, u: string)
    requires IsTypeName(ty)
    ensures TypeArgument(ty + ">" + u) == Ok(ty, u)
  {
    SpanOver(InTypeName, ty, ">" + u);
    assert ty + ">" + u == ty + (">" + u);
    assert (">" + u)[1..] == u;
    assert (ty + ">" + u)[|ty| + 1..] == u;
  }

  // ---- Tails -------------------------------------------------------------

  /** A tail in front of text that ends an expression takes nothing. */
  lemma TailStops(depth: nat, n: Node, saw: bool, u: string)
    requires Stop(u)
    ensures Tail(depth, n, saw, u) == Ok(n, u)
  {
    hide NextPostfix, NextInfix, Parse, SkipWhitespace;
    SkipNothing(u);
    StopTakesNothing(depth, n, saw, u);
  }

  lemma StopTakesNothing(depth: nat, n: Node, saw: bool, u: string)
    requires Stop(u)
    ensures NextPostfix(n, u) == NoPostfix && NextInfix(depth, saw, u) == NoInfix
  {
    hide Parse, Args, Span, TypeArgument;
  }

  lemma TailApplies(depth: nat, n: Node, s: string, n': Node, u: string)
    requires s != "" && s[0] in {'.', '(', '[', ':'} && NextPostfix(n, s) == Applied(n', u)
    ensures Tail(depth, n, false, s) == Tail(depth, n', false, u)
  {
    hide NextPostfix, Parse, NextInfix, SkipWhitespace;
    SkipNothing(s);
  }

  // ---- Primary expressions -----------------------------------------------

  lemma PrimaryMakesParse(depth: nat, s: string, n: Node, u: string)
    requires s != "" && !IsWhitespace(s[0]) && depth <= MEMBER_DEPTH && Primary(s) == Ok(n, u)
    ensures Parse(depth, s) == Tail(depth, n, false, u)
  {
    hide Primary, Tail;
    SkipNothing(s);
  }

  lemma WordParses(w: string, u: string)
    requires w != "" && IsIdentStart(w[0]) && AllIdent(w) && Follows(u)
    ensures w !in {"not", "true", "false"} ==> Primary(w + u) == Ok(Ident(w), u)
    ensures w == "true" ==> Primary(w + u) == Ok(Bool(true), u)
    ensures w == "false" ==> Primary(w + u) == Ok(Bool(false), u)
  {
    hide Parse, Span;
    SpanOver(IsIdent, w, u);
  }

  lemma SizeofParses(ty: string, u: string)
    requires IsTypeName(ty)
    ensures Primary("sizeof<" + ty + ">" + u) == Ok(Sizeof(ty), u)
    ensures Primary("bitsizeof<" + ty + ">" + u) == Ok(BitSizeof(ty), u)
  {
    hide Primary, TypeArgument;
    var rest := ty + ">" + u;
    TypeArgumentOf(ty, u);
    SizeWord("sizeof", rest);
    SizeWord("bitsizeof", rest);
    assert "sizeof<" + ty + ">" + u == "sizeof" + ("<" + rest);
    assert "bitsizeof<" + ty + ">" + u == "bitsizeof" + ("<" + rest);
  }

  lemma SizeWord(w: string, rest: string)
    requires w in {"sizeof", "bitsizeof"}
    ensures Primary(w + ("<" + rest)) ==
            match TypeArgument(rest)
            case Ok(ty, rest') => Ok(if w == "sizeof" then Sizeof(ty) else BitSizeof(ty), rest')
            case Err(e) => Err(e)
  {
    hide Parse, Span, TypeArgument, Number, MoreItems, SkipWhitespace;
    SpanOver(IsIdent, w, "<" + rest);
    assert ("<" + rest)[1..] == rest;
  }

  predicate Starts(s: string)
  {
    s != "" && (IsIdent(s[0]) || s[0] in {'[', '(', '-', '~'})
  }

  lemma {:induction false} PrintStarts(n: Node)
    requires Lexical(n)
    ensures Starts(Print(n))
  {
    match n {
      case Int(i) => DecimalDigits(i);
      case Call(obj, _) => PrintStarts(obj);
      case Cast(operand, _) => PrintStarts(operand);
      case Scope(operand, _) => PrintStarts(operand);
      case Member(operand, _) => PrintStarts(operand);
      case Subscript(arr, _) => PrintStarts(arr);
      case _ =>
    }
  }

  // ---- Infix operators ---------------------------------------------------

  /** In front of an operator and a space, at any depth up to the operator's level, the
      loop takes that operator. */
  lemma OperatorTaken(depth: nat, saw: bool, op: BinaryOp, rest: string)
    requires depth <= Level(op) && (Level(op) == COMPARE_DEPTH ==> !saw)
    ensures NextInfix(depth, saw, OpText(op) + " " + rest) == Operator(op, |OpText(op)|)
    ensures NextPostfix(Bool(true), OpText(op) + " " + rest) == NoPostfix
    ensures (OpText(op) + " " + rest)[|OpText(op)|..] == " " + rest
  {
    hide Parse, Args, TypeArgument, Span;
    var s := OpText(op) + " " + rest;
    assert s[0] == OpText(op)[0];
    assert |OpText(op)| > 1 ==> s[1] == OpText(op)[1];
    assert |OpText(op)| > 2 ==> s[2] == OpText(op)[2];
    assert s[|OpText(op)|] == ' ';
    assert op.LogicalAnd? ==> "and" <= s;
    assert op.LogicalOr? ==> "or" <= s;
  }

  lemma NoPostfixHere(n: Node, m: Node, s: string)
    requires NextPostfix(n, s) == NoPostfix
    ensures NextPostfix(m, s) == NoPostfix
  {
    hide Parse, Args, TypeArgument, Span;
  }

  /** One turn of the operator loop. */
  lemma TailTakes(depth: nat, l: Node, saw: bool, op: BinaryOp, r: Node, text: string, rest: string)
    requires depth <= Level(op) && (Level(op) == COMPARE_DEPTH ==> !saw)
    requires Parse(Level(op) + 1, " " + text) == Ok(r, rest)
    ensures Tail(depth, l, saw, " " + OpText(op) + " " + text) ==
            Tail(depth, Binary(op, l, r), saw || Level(op) == COMPARE_DEPTH, rest)
  {
    hide NextInfix, NextPostfix, Parse, SkipWhitespace;
    var s := OpText(op) + " " + text;
    OperatorTaken(depth, saw, op, text);
    NoPostfixHere(Bool(true), l, s);
    OperatorStarts(op, text);
    SkipSpace(s);
    assert " " + OpText(op) + " " + text == " " + s;
  }

  lemma OperatorStarts(op: BinaryOp, text: string)
    ensures var s := OpText(op) + " " + text; s != "" && !IsWhitespace(s[0]) && s[0] != '\0'
  {}

  // ---- Postfix operators -------------------------------------------------

  /** An optional value in front of a rest; without a value the text holds a floating
      point literal. */
  function Back<T>(r: Option<T>, u: string): Result<T>
  {
    match r case Some(v) => Ok(v, u) case None => Err(Unmodelled)
  }

  function TailOf(depth: nat, r: Option<Node>, u: string): Result<Node>
  {
    match r case Some(n) => Tail(depth, n, false, u) case None => Err(Unmodelled)
  }

  lemma CastApplies(n: Node, ty: string, u: string)
    requires IsTypeName(ty)
    ensures NextPostfix(n, ".as<" + ty + ">" + u) == Applied(Cast(n, ty), u)
  {
    hide Parse, Args, TypeArgument, Span;
    var s, rest := ".as<" + ty + ">" + u, ty + ">" + u;
    TypeArgumentOf(ty, u);
    SpanOver(IsIdent, "as", "<" + rest);
    assert s == "." + ("as" + ("<" + rest)) && s[1..] == "as" + ("<" + rest);
    assert ("<" + rest)[1..] == rest && Peek("<" + rest) == '<';
  }

  lemma ScopeApplies(n: Node, ty: string, u: string)
    requires AllIdent(ty) && Follows(u)
    ensures NextPostfix(n, "::" + ty + u) == Applied(Scope(n, ty), u)
  {
    hide Parse, Args, TypeArgument, Span;
    SpanOver(IsIdent, ty, u);
    assert ("::" + ty + u)[2..] == ty + u;
  }

  lemma MemberApplies(n: Node, prop: string, u: string)
    requires AllIdent(prop) && Follows(u)
    ensures NextPostfix(n, "." + prop + u) == Applied(Member(n, prop), u)
  {
    hide Parse, Args, TypeArgument, Span;
    SpanOver(IsIdent, prop, u);
    assert ("." + prop + u)[1..] == prop + u;
  }

  lemma SubscriptApplies(n: Node, text: string, i: Option<Node>, u: string)
    requires Parse(0, text + ("]" + u)) == Back(i, "]" + u)
    ensures NextPostfix(n, "[" + text + "]" + u) ==
            match i case Some(index) => Applied(Subscript(n, index), u) case None => PostfixError(Unmodelled)
  {
    hide Parse, Args, TypeArgument, Span;
    var s := "[" + text + "]" + u;
    assert s[1..] == text + ("]" + u);
    assert ("]" + u)[1..] == u;
  }

  lemma CallApplies(n: Node, text: string, a: Option<seq<Node>>, u: string)
    requires Args(text + (")" + u)) == Back(a, ")" + u)
    ensures NextPostfix(n, "(" + text + ")" + u) ==
            match a case Some(args) => Applied(Call(n, args), u) case None => PostfixError(Unmodelled)
  {
    hide Parse, Args, TypeArgument, Span;
    var s := "(" + text + ")" + u;
    assert s[1..] == text + (")" + u);
    assert (")" + u)[1..] == u;
  }

  lemma TailFails(depth: nat, n: Node, s: string, e: ParseError)
    requires s != "" && s[0] in {'.', '(', '[', ':'} && NextPostfix(n, s) == PostfixError(e)
    ensures Tail(depth, n, false, s) == Err(e)
  {
    hide NextPostfix, Parse, NextInfix, SkipWhitespace;
    SkipNothing(s);
  }

  lemma {:induction false} PrintSplits(n: Node)
    ensures Print(n) == Print(Base(n)) + PostText(n)
  {
    hide Print, PostText, Base, LastText;
    if Postfix(n) {
      PrintSplits(Inner(n));
      ChainParts(n);
      Reassociate(Print(Base(n)), PostText(Inner(n)), LastText(n));
    } else {
      RebuiltParts(n, n);
      assert Print(n) + "" == Print(n);
    }
  }

  /** The operator loop on the postfix operators printed for `n`, with any operand. */
  lemma {:induction false} TailRereads(n: Node, x: Node, depth: nat, u: string)
    requires Lexical(n) && Follows(u)
    ensures Tail(depth, x, false, PostText(n) + u) == TailOf(depth, Rebuilt(n, x), u)
    decreases n, 2
  {
    hide Tail, NextPostfix, Lexical, Rebuilt, OnOperand, LastText, PostText, Base, Follows;
    RebuiltParts(n, x);
    if Postfix(n) {
      var o, v := Inner(n), LastText(n) + u;
      ChainParts(n);
      FollowsOn(LastText(n), u);
      Reassociate(PostText(o), LastText(n), u);
      assert Lexical(o) by { LexicalParts(n); }
      TailRereads(o, x, depth, v);
      if Rebuilt(o, x).Some? {
        var o' := Rebuilt(o, x).value;
        LastApplies(n, o', u);
        match OnOperand(n, o') {
          case Some(n') => TailApplies(depth, o', v, n', u);
          case None => TailFails(depth, o', v, Unmodelled);
        }
      }
    } else {
      assert PostText(n) + u == u;
    }
  }

  lemma FollowsOn(text: string, u: string)
    requires text != "" && text[0] in {'.', '(', '[', ':'} && Follows(text)
    ensures Follows(text + u) && (text + u)[0] == text[0]
  {}

  /** The last operator of a chain is taken, unless its arguments cannot be read. */
  lemma {:induction false} LastApplies(n: Node, o: Node, u: string)
    requires Postfix(n) && Lexical(n) && Follows(u)
    ensures NextPostfix(o, LastText(n) + u) ==
            match OnOperand(n, o) case Some(n') => Applied(n', u) case None => PostfixError(Unmodelled)
    decreases n, 1
  {
    hide NextPostfix, Lexical, Print, PrintList, Reread, RereadAll, Follows;
    LexicalParts(n);
    LexicalNames(n);
    match n {
      case Call(_, args) =>
        ArgsReread(n, ")" + u);
        CallApplies(o, PrintList(args), RereadAll(args), u);
      case Cast(_, ty) => CastApplies(o, ty, u);
      case Scope(_, ty) => ScopeApplies(o, ty, u);
      case Member(_, prop) => MemberApplies(o, prop, u);
      case Subscript(_, index) =>
        NodeRereads(index, "]" + u);
        SubscriptApplies(o, Print(index), Reread(index), u);
    }
  }

  lemma LexicalNames(n: Node)
    requires Lexical(n)
    ensures n.Cast? || n.Sizeof? || n.BitSizeof? ==> IsTypeName(n.ty)
    ensures n.Scope? ==> AllIdent(n.ty)
    ensures n.Member? ==> AllIdent(n.prop)
    ensures n.Ident? ==> IsName(n.name)
  {}

  // ---- Lists -------------------------------------------------------------

  /** Text of the items from `k` on, each with its comma. */
  function ItemsFrom(items: seq<Node>, k: nat): string
    requires k <= |items|
  {
    if k == |items| then "" else ", " + PrintList(items[k..])
  }

  lemma PrintListSplit(items: seq<Node>, k: nat)
    requires k < |items|
    ensures PrintList(items[k..]) == Print(items[k]) + ItemsFrom(items, k + 1)
  {
    hide Print;
    assert items[k..][0] == items[k] && items[k..][1..] == items[k + 1..];
  }

  /** The list read behind the items `done`. */
  function Joined(done: seq<Node>, rest: Option<seq<Node>>): Option<seq<Node>>
  {
    match rest case Some(r) => Some(done + r) case None => None
  }

  lemma JoinedStep(done: seq<Node>, items: seq<Node>, k: nat)
    requires k < |items| && Reread(items[k]).Some?
    ensures Joined(done + [Reread(items[k]).value], RereadAll(items[k + 1..])) == Joined(done, RereadAll(items[k..]))
  {
    hide Reread;
    assert items[k..][0] == items[k] && items[k..][1..] == items[k + 1..];
    var rest := RereadAll(items[k + 1..]);
    if rest.Some? { assert done + [Reread(items[k]).value] + rest.value == done + ([Reread(items[k]).value] + rest.value); }
  }

  lemma RereadAllFails(items: seq<Node>, k: nat)
    requires k < |items| && Reread(items[k]).None?
    ensures RereadAll(items[k..]).None?
  {
    hide Reread;
    assert items[k..][0] == items[k];
  }

  /** What the bracket of an array literal leads to. */
  function Bracketed(s1: string): Result<Node>
  {
    if Peek(s1) == ']' then Ok(Array([]), s1[1..])
    else
      match Parse(0, s1)
      case Err(e) => Err(e)
      case Ok(n, rest) =>
        match MoreItems([n], rest)
        case Ok(items, rest') => Ok(Array(items), rest')
        case Err(e) => Err(e)
  }

  lemma PrimaryBracket(s: string)
    requires s != "" && s[0] == '['
    ensures Primary(s) == Bracketed(SkipWhitespace(s[1..]))
  {
    hide Parse, MoreItems, Span, Number, TypeArgument, SkipWhitespace;
  }

  lemma {:induction false} ArrayRereads(n: Node, u: string)
    requires n.Array? && Lexical(n)
    ensures Primary(Print(n) + u) ==
            match RereadAll(n.items) case Some(items) => Ok(Array(items), u) case None => Err(Unmodelled)
    decreases n, 1
  {
    hide Parse, MoreItems, Primary, SkipWhitespace, Print, PrintList, Reread, RereadAll, Lexical;
    LexicalParts(n);
    var items, close := n.items, "]" + u;
    var s := Print(n) + u;
    var s1 := PrintList(items) + close;
    assert s == "[" + s1 by { ArrayPrints(n, u); }
    assert s[1..] == s1 && close[1..] == u;
    PrimaryBracket(s);
    NoItems(items);
    if items == [] {
      EmptyList();
      assert s1 == close;
      SkipNothing(s1);
    } else {
      var rest := ItemsFrom(items, 1) + close;
      assert items[0..] == items;
      PrintListSplit(items, 0);
      assert s1 == Print(items[0]) + rest;
      PrintStarts(items[0]);
      SkipNothing(s1);
      NodeRereads(items[0], rest);
      if Reread(items[0]).Some? {
        var first := Reread(items[0]).value;
        ItemsReread(n, [first], 1, u);
        JoinedStep([], items, 0);
        assert [] + [first] == [first];
      } else {
        RereadAllFails(items, 0);
      }
    }
  }

  lemma ArrayPrints(n: Node, u: string)
    requires n.Array?
    ensures Print(n) + u == "[" + (PrintList(n.items) + ("]" + u))
  {
    hide PrintList;
    Joined3("[", PrintList(n.items), "]", u);
  }

  lemma EmptyList()
    ensures PrintList([]) == ""
  {}

  lemma NoItems(items: seq<Node>)
    ensures items == [] ==> RereadAll(items) == Some([])
    ensures Joined([], RereadAll(items)) == RereadAll(items)
  {
    if RereadAll(items).Some? { assert [] + RereadAll(items).value == RereadAll(items).value; }
  }

  lemma {:induction false} ItemsReread(n: Node, done: seq<Node>, k: nat, u: string)
    requires n.Array? && Lexical(n) && k <= |n.items|
    ensures MoreItems(done, ItemsFrom(n.items, k) + ("]" + u)) == Back(Joined(done, RereadAll(n.items[k..])), u)
    decreases n, 0, |n.items| - k
  {
    hide Parse, Print, PrintList, Lexical, Span, SkipWhitespace, Reread, RereadAll;
    LexicalParts(n);
    var items, close := n.items, "]" + u;
    var s := ItemsFrom(items, k) + close;
    SkipNothing(s);
    if k == |items| {
      NoItems(items[k..]);
      assert s == close && close[1..] == u && done + [] == done;
    } else {
      var rest := ItemsFrom(items, k + 1) + close;
      PrintListSplit(items, k);
      var s2 := Print(items[k]) + rest;
      assert s[1..] == " " + s2;
      PrintStarts(items[k]);
      SkipSpace(s2);
      NodeRereads(items[k], rest);
      if Reread(items[k]).Some? {
        ItemsReread(n, done + [Reread(items[k]).value], k + 1, u);
        JoinedStep(done, items, k);
      } else {
        RereadAllFails(items, k);
      }
    }
  }

  lemma {:induction false} ArgsReread(n: Node, close: string)
    requires n.Call? && Lexical(n) && close != "" && close[0] == ')'
    ensures Args(PrintList(n.args) + close) == Back(RereadAll(n.args), close)
    decreases n, 0, |n.args| + 1
  {
    hide Parse, MoreArgs, Lexical, Reread, RereadAll;
    LexicalParts(n);
    var args := n.args;
    var s1 := PrintList(args) + close;
    NoItems(args);
    if args == [] {
      assert s1 == close;
      SkipNothing(s1);
    } else {
      var rest := ItemsFrom(args, 1) + close;
      assert args[0..] == args;
      PrintListSplit(args, 0);
      assert s1 == Print(args[0]) + rest;
      PrintStarts(args[0]);
      SkipNothing(s1);
      NodeRereads(args[0], rest);
      if Reread(args[0]).Some? {
        var first := Reread(args[0]).value;
        MoreArgsReread(n, [first], 1, close);
        JoinedStep([], args, 0);
        assert [] + [first] == [first];
      } else {
        RereadAllFails(args, 0);
      }
    }
  }

  lemma {:induction false} MoreArgsReread(n: Node, done: seq<Node>, k: nat, close: string)
    requires n.Call? && Lexical(n) && k <= |n.args| && close != "" && close[0] == ')'
    ensures MoreArgs(done, ItemsFrom(n.args, k) + close) == Back(Joined(done, RereadAll(n.args[k..])), close)
    decreases n, 0, |n.args| - k
  {
    hide Parse, Print, PrintList, Lexical, Span, SkipWhitespace, Reread, RereadAll;
    LexicalParts(n);
    var args := n.args;
    var s := ItemsFrom(args, k) + close;
    SkipNothing(s);
    if k == |args| {
      NoItems(args[k..]);
      assert s == close && done + [] == done;
    } else {
      var rest := ItemsFrom(args, k + 1) + close;
      PrintListSplit(args, k);
      var s2 := Print(args[k]) + rest;
      assert s[1..] == " " + s2;
      PrintStarts(args[k]);
      SkipSpace(s2);
      NodeRereads(args[k], rest);
      if Reread(args[k]).Some? {
        MoreArgsReread(n, done + [Reread(args[k]).value], k + 1, close);
        JoinedStep(done, args, k);
      } else {
        RereadAllFails(args, k);
      }
    }
  }

  // ---- Chains on a primary node ------------------------------------------

  lemma DigitStarts(s: string)
    requires s != "" && IsDigit(s[0])
    ensures Primary(s) == Number(s)
  {
    hide Parse, Number, Span;
  }

  /** An integer literal with such a point behind it is a floating point literal. */
  lemma NumberPointed(n: nat, u: string)
    requires Pointed(Int(n), u)
    ensures Number(Decimal(n) + u) == Err(Unmodelled)
  {
    hide Decimal, Numeral, Prefixed, Span, WithoutUnderscores;
    DecimalDigits(n);
    SpanOver(IsNumber, Decimal(n), u);
  }

  /** What a primary node is read as in front of the text `u`. */
  function RereadPrimary(b: Node, u: string): Option<Node>
  {
    if Pointed(b, u) then None
    else if b.Array? then
      match RereadAll(b.items) case Some(items) => Some(Array(items)) case None => None
    else Some(b)
  }

  lemma {:induction false} PrimaryRereads(b: Node, u: string)
    requires Lexical(b) && Base(b) == b && Atom(b) && Follows(u)
    ensures Primary(Print(b) + u) == Back(RereadPrimary(b, u), u)
    decreases b, 2
  {
    hide Parse, Tail, Primary, Number, Decimal, Lexical, RereadAll;
    LexicalNames(b);
    match b {
      case Ident(name) => WordParses(name, u);
      case Int(i) =>
        DecimalDigits(i);
        DigitStarts(Decimal(i) + u);
        if Pointed(b, u) { NumberPointed(i, u); } else { NumberOfDecimal(i, u); }
      case Bool(t) => WordParses(if t then "true" else "false", u);
      case Sizeof(ty) => SizeofParses(ty, u);
      case BitSizeof(ty) => SizeofParses(ty, u);
      case Array(items) => ArrayRereads(b, u);
    }
  }

  lemma PrimaryFails(depth: nat, s: string)
    requires s != "" && !IsWhitespace(s[0]) && Primary(s) == Err(Unmodelled)
    ensures Parse(depth, s) == Err(Unmodelled)
  {
    hide Primary, Tail;
    SkipNothing(s);
  }

  /** A chain on a primary node, at any depth: what is left to the operator loop is what
      follows. */
  lemma {:induction false} ChainRereads(n: Node, depth: nat, u: string)
    requires Lexical(n) && Atom(Base(n)) && Follows(u) && depth <= MEMBER_DEPTH
    requires PostText(n) == "" ==> !Pointed(Base(n), u)
    ensures Parse(depth, Print(n) + u) == TailOf(depth, Reread(n), u)
    decreases n, 3
  {
    hide Parse, Tail, Primary, Print, Lexical, PostText, RereadAll, Rebuilt, Follows, Starts;
    var b, v := Base(n), PostText(n) + u;
    LexicalBase(n);
    PrintSplits(n);
    Reassociate(Print(b), PostText(n), u);
    PostFollows(n, b, u);
    PrimaryRereads(b, v);
    BaseStarts(b, v);
    if RereadPrimary(b, v).Some? {
      var x := RereadPrimary(b, v).value;
      PrimaryMakesParse(depth, Print(b) + v, x, v);
      TailRereads(n, x, depth, u);
    } else {
      PrimaryFails(depth, Print(b) + v);
    }
  }

  lemma BaseStarts(b: Node, v: string)
    requires Lexical(b)
    ensures Print(b) + v != "" && !IsWhitespace((Print(b) + v)[0])
  {
    hide Print;
    PrintStarts(b);
  }

  lemma PostFollows(n: Node, b: Node, u: string)
    requires Follows(u) && (PostText(n) == "" ==> !Pointed(b, u))
    ensures Follows(PostText(n) + u) && (Pointed(b, PostText(n) + u) <==> Pointed(b, PostText(n)))
  {
    hide PostText;
    if PostText(n) == "" {
      assert PostText(n) + u == u;
    } else {
      PostStarts(n, u);
      PointFollowed(PostText(n), u);
    }
  }

  lemma PointFollowed(text: string, u: string)
    requires text != "" && Follows(u)
    ensures forall b :: Pointed(b, text + u) <==> Pointed(b, text)
  {
    if |text| > 1 {
      assert (text + u)[1..][0] == text[1] == text[1..][0];
    } else {
      assert (text + u)[1..] == u && text[1..] == "";
    }
  }

  // ---- Chains on an operator node ----------------------------------------

  lemma ParenPrimary(text: string, r: Option<Node>, u: string)
    requires Parse(0, text + (")" + u)) == Back(r, ")" + u)
    ensures Primary("(" + text + ")" + u) == Back(r, u)
  {
    hide Parse, Number, Span, TypeArgument;
    var s := "(" + text + ")" + u;
    assert s[1..] == text + (")" + u);
    assert (")" + u)[1..] == u;
  }

  /** A parenthesised tree, read at any depth. */
  lemma {:induction false} ParenRereads(n: Node, depth: nat, u: string)
    requires Lexical(n) && depth <= MEMBER_DEPTH
    ensures Parse(depth, "(" + Print(n) + ")" + u) == TailOf(depth, Reread(n), u)
    ensures Parse(depth, " (" + Print(n) + ")" + u) == TailOf(depth, Reread(n), u)
    decreases n, 7
  {
    hide Parse, Tail, Primary, Print, Reread;
    NodeRereads(n, ")" + u);
    var s := "(" + Print(n) + ")" + u;
    ParenPrimary(Print(n), Reread(n), u);
    if Reread(n).Some? {
      PrimaryMakesParse(depth, s, Reread(n).value, u);
    } else {
      PrimaryFails(depth, s);
    }
    assert " (" + Print(n) + ")" + u == " " + s;
    ParseAfterSpace(depth, s);
  }

  /** `a` is a part of the base of the chain `n`. */
  ghost predicate Deeper(n: Node, a: Node)
  {
    Base(n) decreases to a
  }

  /** A parenthesised last operand takes the postfix operators of the chain. */
  lemma {:induction false} LastRereads(n: Node, a: Node, depth: nat, u: string)
    requires Lexical(n) && Lexical(a) && Stop(u) && depth <= MEMBER_DEPTH
    requires Deeper(n, a)
    ensures Parse(depth, " (" + Print(a) + ")" + (PostText(n) + u)) == Back(Carried(n, Reread(a)), u)
    ensures Parse(depth, "(" + Print(a) + ")" + (PostText(n) + u)) == Back(Carried(n, Reread(a)), u)
    decreases n, 4
  {
    hide Parse, Tail, Print, Reread, Rebuilt, PostText, Follows;
    ParenRereads(a, depth, PostText(n) + u);
    if Reread(a).Some? {
      StopFollows(u);
      TailRereads(n, Reread(a).value, depth, u);
      var x := Rebuilt(n, Reread(a).value);
      if x.Some? { TailStops(depth, x.value, false, u); }
    }
  }

  /** The chain of `n` on a base that was read. */
  function Carried(n: Node, a: Option<Node>): Option<Node>
  {
    if a.None? then None else Rebuilt(n, a.value)
  }

  lemma StopFollows(u: string)
    requires Stop(u)
    ensures Follows(u)
  {}

  /** A printed tree, followed by text that ends an expression. */
  lemma {:induction false} NodeRereads(n: Node, u: string)
    requires Lexical(n) && Stop(u)
    ensures Parse(0, Print(n) + u) == Back(Reread(n), u)
    decreases n, 6
  {
    hide Parse, Tail, Primary, Print, Lexical, Reread, PostText, Rebuilt, Follows;
    StopFollows(u);
    if Atom(Base(n)) {
      assert !Pointed(Base(n), u);
      ChainRereads(n, 0, u);
      if Reread(n).Some? { TailStops(0, Reread(n).value, false, u); }
    } else {
      LexicalBase(n);
      PrintSplits(n);
      Reassociate(Print(Base(n)), PostText(n), u);
      match Base(n) {
        case Unary(_, _) => UnaryRereads(n, u);
        case Binary(_, _, _) => BinaryRereads(n, u);
        case Ternary(_, _, _) => TernaryRereads(n, u);
      }
    }
  }

  lemma {:induction false} UnaryRereads(n: Node, u: string)
    requires Lexical(n) && Base(n).Unary? && Lexical(Base(n)) && Stop(u)
    ensures Parse(0, Print(Base(n)) + (PostText(n) + u)) == Back(Reread(n), u)
    decreases n, 5
  {
    hide Parse, Tail, Number, Span, Print, TypeArgument, Lexical, PostText, Rebuilt, Follows;
    var b, v := Base(n), PostText(n) + u;
    var inner := "(" + Print(b.a) + ")" + v;
    var s := Print(b) + v;
    UnaryPrints(b, v);
    LexicalParts(b);
    if b.op == LogicalNot {
      assert " (" + Print(b.a) + ")" + v == " " + inner;
      LastRereads(n, b.a, COMPARE_DEPTH, u);
      SpanOver(IsIdent, "not", " " + inner);
      assert s == "not" + (" " + inner);
    } else {
      LastRereads(n, b.a, MEMBER_DEPTH, u);
      assert s[1..] == inner;
    }
    var r := Carried(n, Reread(b.a));
    if r.Some? {
      PrimaryMakesParse(0, s, Unary(b.op, r.value), u);
      TailStops(0, Unary(b.op, r.value), false, u);
    } else {
      PrimaryFails(0, s);
    }
  }

  lemma UnaryPrints(n: Node, u: string)
    requires n.Unary?
    ensures Print(n) + u == UnaryText(n.op) + ("(" + Print(n.a) + ")" + u)
  {}

  lemma {:induction false} BinaryRereads(n: Node, u: string)
    requires Lexical(n) && Base(n).Binary? && Lexical(Base(n)) && Stop(u)
    ensures Parse(0, Print(Base(n)) + (PostText(n) + u)) == Back(Reread(n), u)
    decreases n, 5
  {
    hide Parse, Tail, Primary, Print, Lexical, OpText, PostText, Rebuilt, Follows;
    var b, v := Base(n), PostText(n) + u;
    var op, l, r := b.bop, b.l, b.r;
    var right := "(" + Print(r) + ")" + v;
    LexicalParts(b);
    BinaryPrints(b, v);
    ParenRereads(l, 0, " " + OpText(op) + " " + right);
    LastRereads(n, r, Level(op) + 1, u);
    assert " (" + Print(r) + ")" + v == " " + right;
    if Reread(l).Some? {
      var l' := Reread(l).value;
      var x := Carried(n, Reread(r));
      if x.Some? {
        TailTakes(0, l', false, op, x.value, right, u);
        TailStops(0, Binary(op, l', x.value), Level(op) == COMPARE_DEPTH, u);
      } else {
        TailTakesNone(0, l', false, op, right);
      }
    }
  }

  lemma TailTakesNone(depth: nat, l: Node, saw: bool, op: BinaryOp, text: string)
    requires depth <= Level(op) && (Level(op) == COMPARE_DEPTH ==> !saw)
    requires Parse(Level(op) + 1, " " + text) == Err(Unmodelled)
    ensures Tail(depth, l, saw, " " + OpText(op) + " " + text) == Err(Unmodelled)
  {
    hide NextInfix, NextPostfix, Parse, SkipWhitespace;
    var s := OpText(op) + " " + text;
    OperatorTaken(depth, saw, op, text);
    NoPostfixHere(Bool(true), l, s);
    OperatorStarts(op, text);
    SkipSpace(s);
    assert " " + OpText(op) + " " + text == " " + s;
  }

  lemma BinaryPrints(n: Node, u: string)
    requires n.Binary?
    ensures Print(n) + u == "(" + Print(n.l) + ")" + (" " + OpText(n.bop) + " " + ("(" + Print(n.r) + ")" + u))
  {
    hide OpText;
  }

  lemma {:induction false} TernaryRereads(n: Node, u: string)
    requires Lexical(n) && Base(n).Ternary? && Lexical(Base(n)) && Stop(u)
    ensures Parse(0, Print(Base(n)) + (PostText(n) + u)) == Back(Reread(n), u)
    decreases n, 5
  {
    hide Parse, Tail, Primary, Print, Lexical, PostText, Rebuilt, Follows;
    var b, v := Base(n), PostText(n) + u;
    var last := " (" + Print(b.e) + ")" + v;
    var mid := " :" + last;
    var text := " (" + Print(b.t) + ")" + mid;
    LexicalParts(b);
    TernaryPrints(b, v);
    ParenRereads(b.c, 0, " ?" + text);
    ParenRereads(b.t, 0, mid);
    LastRereads(n, b.e, 0, u);
    if Reread(b.c).Some? {
      if Reread(b.t).Some? { ColonStops(Reread(b.t).value, last); }
      QuestionTaken(Reread(b.c).value, Reread(b.t), Carried(n, Reread(b.e)), text, last, u);
    }
  }

  lemma TernaryPrints(n: Node, u: string)
    requires n.Ternary?
    ensures Print(n) + u ==
            "(" + Print(n.c) + ")" + (" ?" + (" (" + Print(n.t) + ")" + (" :" + (" (" + Print(n.e) + ")" + u))))
  {
    var last := " (" + Print(n.e) + ")" + u;
    var text := " (" + Print(n.t) + ")" + (" :" + last);
    assert Print(n) + u == "(" + Print(n.c) + ") ? (" + Print(n.t) + ") : (" + Print(n.e) + ")" + u;
    assert ") : (" + Print(n.e) + ")" + u == ")" + (" :" + last);
    assert ") ? (" + Print(n.t) + (")" + (" :" + last)) == ")" + (" ?" + text);
  }

  lemma ColonStops(n: Node, rest: string)
    requires rest != "" && rest[0] != ':'
    ensures Tail(0, n, false, " :" + rest) == Ok(n, ":" + rest)
  {
    hide Parse, Span, Args, TypeArgument;
    SkipSpace(":" + rest);
    assert " :" + rest == " " + (":" + rest);
  }

  lemma QuestionTaken(c: Node, t: Option<Node>, e: Option<Node>, text: string, rest: string, u: string)
    requires Parse(0, text) == Back(t, ":" + rest) && Parse(0, rest) == Back(e, u)
    ensures Tail(0, c, false, " ?" + text) ==
            if t.Some? && e.Some? then Ok(Ternary(c, t.value, e.value), u) else Err(Unmodelled)
  {
    hide Parse, Span, Args, TypeArgument;
    var s := "?" + text;
    SkipSpace(s);
    assert " ?" + text == " " + s && s[1..] == text && (":" + rest)[1..] == rest;
  }

  // ---- The parser yields lexical trees -------------------------------------

  lemma {:induction false} ParseLexical(depth: nat, s: string)
    ensures Parse(depth, s).Ok? ==> Lexical(Parse(depth, s).value)
    decreases |s|, 2
  {
    hide Primary, Tail, Lexical;
    var t := SkipWhitespace(s);
    PrimaryLexical(t);
    if Primary(t).Ok? { TailLexical(depth, Primary(t).value, false, Primary(t).rest); }
  }

  lemma {:induction false} PrimaryLexical(s: string)
    ensures Primary(s).Ok? ==> Lexical(Primary(s).value)
    decreases |s|, 1
  {
    hide Parse, Number, TypeArgument, SkipWhitespace, MoreItems;
    if s == "" { return; }
    if IsIdentStart(s[0]) {
      var k := Span(IsIdent, s);
      WordLexical(s);
      var rest := s[k..];
      if s[..k] == "not" { ParseLexical(COMPARE_DEPTH, rest); }
      if rest != "" { TypeLexical(rest[1..]); }
    } else if s[0] == '[' {
      ArrayLexical(s);
    } else {
      NumberLexical(s);
      ParseLexical(0, s[1..]);
      ParseLexical(MEMBER_DEPTH, s[1..]);
    }
  }

  lemma WordLexical(s: string)
    requires s != "" && IsIdentStart(s[0])
    ensures var w := s[..Span(IsIdent, s)]; w != "" && IsIdentStart(w[0]) && AllIdent(w)
  {}

  lemma TypeLexical(s: string)
    ensures TypeArgument(s).Ok? ==> IsTypeName(TypeArgument(s).value)
  {}

  lemma NumberLexical(s: string)
    requires s != ""
    ensures Number(s).Ok? ==> Number(s).value.Int?
  {
    hide Span, Numeral, WithoutUnderscores;
  }

  lemma {:induction false} ArrayLexical(s: string)
    requires s != "" && s[0] == '['
    ensures Primary(s).Ok? ==> Lexical(Primary(s).value)
    decreases |s|, 0
  {
    hide Parse, MoreItems, Primary, SkipWhitespace;
    PrimaryBracket(s);
    var s1 := SkipWhitespace(s[1..]);
    if Peek(s1) != ']' {
      ParseLexical(0, s1);
      if Parse(0, s1).Ok? { ItemsLexical([Parse(0, s1).value], Parse(0, s1).rest); }
    }
  }

  ghost predicate AllLexical(items: seq<Node>)
  {
    forall i :: 0 <= i < |items| ==> Lexical(items[i])
  }

  lemma {:induction false} ItemsLexical(done: seq<Node>, s: string)
    requires AllLexical(done)
    ensures MoreItems(done, s).Ok? ==> AllLexical(MoreItems(done, s).value)
    decreases |s|, 0
  {
    hide Parse, Lexical, SkipWhitespace;
    var s1 := SkipWhitespace(s);
    if Peek(s1) == ',' {
      var s2 := SkipWhitespace(s1[1..]);
      if Peek(s2) != ']' {
        ParseLexical(0, s2);
        if Parse(0, s2).Ok? { ItemsLexical(done + [Parse(0, s2).value], Parse(0, s2).rest); }
      }
    }
  }

  lemma {:induction false} ArgsLexical(s: string)
    ensures Args(s).Ok? ==> AllLexical(Args(s).value)
    decreases |s|, 3
  {
    hide Parse, Lexical, SkipWhitespace, MoreArgs;
    var s1 := SkipWhitespace(s);
    if Peek(s1) != ')' {
      ParseLexical(0, s1);
      if Parse(0, s1).Ok? { MoreArgsLexical([Parse(0, s1).value], Parse(0, s1).rest); }
    }
  }

  lemma {:induction false} MoreArgsLexical(done: seq<Node>, s: string)
    requires AllLexical(done)
    ensures MoreArgs(done, s).Ok? ==> AllLexical(MoreArgs(done, s).value)
    decreases |s|, 0
  {
    hide Parse, Lexical, SkipWhitespace;
    var s1 := SkipWhitespace(s);
    if Peek(s1) == ',' {
      var s2 := SkipWhitespace(s1[1..]);
      ParseLexical(0, s2);
      if Parse(0, s2).Ok? { MoreArgsLexical(done + [Parse(0, s2).value], Parse(0, s2).rest); }
    }
  }

  lemma {:induction false} PostfixLexical(n: Node, s: string)
    requires Lexical(n)
    ensures NextPostfix(n, s).Applied? ==> Lexical(NextPostfix(n, s).n)
    decreases |s|, 0
  {
    hide Parse, Args, TypeArgument, Span, Lexical, AllIdent;
    if |s| > 1 && s[0] == ':' {
      SpanLexical(s[2..]);
      PostLexical(n, s[2..][..Span(IsIdent, s[2..])], "", [], n);
    } else if s != "" && s[0] == '.' {
      var k := Span(IsIdent, s[1..]);
      var rest := s[1..][k..];
      SpanLexical(s[1..]);
      PostLexical(n, s[1..][..k], "", [], n);
      if rest != "" && TypeArgument(rest[1..]).Ok? {
        TypeLexical(rest[1..]);
        PostLexical(n, s[1..][..k], TypeArgument(rest[1..]).value, [], n);
      }
    } else if s != "" && s[0] == '(' {
      ArgsLexical(s[1..]);
      if Args(s[1..]).Ok? { PostLexical(n, "", "", Args(s[1..]).value, n); }
    } else if s != "" {
      ParseLexical(0, s[1..]);
      if Parse(0, s[1..]).Ok? { PostLexical(n, "", "", [], Parse(0, s[1..]).value); }
    }
  }

  lemma SpanLexical(s: string)
    ensures AllIdent(s[..Span(IsIdent, s)])
  {}

  lemma PostLexical(n: Node, name: string, ty: string, args: seq<Node>, index: Node)
    requires Lexical(n) && IsTypeName(ty) && AllLexical(args) && Lexical(index)
    ensures AllIdent(name) ==> Lexical(Scope(n, name)) && Lexical(Member(n, name))
    ensures Lexical(Cast(n, ty)) && Lexical(Call(n, args)) && Lexical(Subscript(n, index))
  {}

  lemma {:induction false} TailLexical(depth: nat, n: Node, saw: bool, s0: string)
    requires Lexical(n)
    ensures Tail(depth, n, saw, s0).Ok? ==> Lexical(Tail(depth, n, saw, s0).value)
    decreases |s0|, 1
  {
    hide Parse, NextPostfix, NextInfix, SkipWhitespace, Lexical, Level;
    var s := SkipWhitespace(s0);
    PostfixLexical(n, s);
    match NextPostfix(n, s) {
      case Applied(n', rest) => TailLexical(depth, n', saw, rest);
      case NoPostfix =>
        match NextInfix(depth, saw, s) {
          case Operator(op, len) =>
            ParseLexical(Level(op) + 1, s[len..]);
            var r := Parse(Level(op) + 1, s[len..]);
            if r.Ok? {
              OperatorLexical(op, n, r.value, n);
              TailLexical(depth, Binary(op, n, r.value), saw || Level(op) == COMPARE_DEPTH, r.rest);
            }
          case Question =>
            ParseLexical(0, s[1..]);
            var r := Parse(0, s[1..]);
            if r.Ok? && Peek(r.rest) == ':' {
              ParseLexical(0, r.rest[1..]);
              var e := Parse(0, r.rest[1..]);
              if e.Ok? { OperatorLexical(Add, n, r.value, e.value); }
            }
          case _ =>
        }
      case _ =>
    }
  }

  lemma OperatorLexical(op: BinaryOp, a: Node, b: Node, c: Node)
    requires Lexical(a) && Lexical(b) && Lexical(c)
    ensures Lexical(Binary(op, a, b)) && Lexical(Ternary(a, b, c))
  {}

  // ---- The theorems --------------------------------------------------------

  /** What any lexical tree is read as from its printed form: the whole text is consumed. */
  lemma PrintedIsReread(n: Node)
    requires Lexical(n)
    ensures ParseExpr(Print(n)) == match Reread(n) case Some(t) => Expression(t) case None => Outside
  {
    hide Parse, Print, Reread;
    PrintStarts(n);
    NodeRereads(n, "");
    assert Print(n) + "" == Print(n);
  }

  lemma {:induction false} WellFormedLexical(n: Node)
    requires WellFormed(n)
    ensures Lexical(n)
  {
    match n {
      case Array(items) =>
        forall i | 0 <= i < |items| ensures Lexical(items[i]) { WellFormedLexical(items[i]); }
      case Call(obj, args) =>
        WellFormedLexical(obj);
        forall i | 0 <= i < |args| ensures Lexical(args[i]) { WellFormedLexical(args[i]); }
      case Cast(operand, _) => WellFormedLexical(operand);
      case Unary(_, a) => WellFormedLexical(a);
      case Binary(_, l, r) => WellFormedLexical(l); WellFormedLexical(r);
      case Ternary(c, t, e) => WellFormedLexical(c); WellFormedLexical(t); WellFormedLexical(e);
      case Scope(operand, _) => WellFormedLexical(operand);
      case Member(operand, _) => WellFormedLexical(operand);
      case Subscript(arr, index) => WellFormedLexical(arr); WellFormedLexical(index);
      case _ =>
    }
  }

  /** The parser undoes the printer: the whole text is consumed and yields the tree. */
  lemma ParserUndoesPrinter(n: Node)
    requires WellFormed(n)
    ensures ParseExpr(Print(n)) == Expression(n)
  {
    hide Reread, WellFormed, Lexical;
    WellFormedLexical(n);
    RereadSame(n);
    PrintedIsReread(n);
  }

  /** It does so for the well-formed trees only, among all trees. */
  lemma RoundTripIffWellFormed(n: Node)
    ensures ParseExpr(Print(n)) == Expression(n) <==> WellFormed(n)
  {
    hide Parse, Reread, WellFormed, Lexical;
    if WellFormed(n) { ParserUndoesPrinter(n); }
    if ParseExpr(Print(n)) == Expression(n) {
      ParseLexical(0, Print(n));
      RereadSame(n);
      PrintedIsReread(n);
    }
  }

  /** Printing distinguishes well-formed trees. */
  lemma PrinterInjective(a: Node, b: Node)
    requires WellFormed(a) && WellFormed(b) && Print(a) == Print(b)
    ensures a == b
  {
    ParserUndoesPrinter(a);
    ParserUndoesPrinter(b);
  }

  /** Well-formed atoms: what is left to the operator loop is exactly what follows. */
  lemma AtomParses(n: Node, depth: nat, u: string)
    requires WellFormed(n) && Atom(n) && FollowsAtom(n, u) && depth <= MEMBER_DEPTH
    ensures Parse(depth, Print(n) + u) == Tail(depth, n, false, u)
  {
    hide Parse, Tail, Reread, Lexical, PostText;
    WellFormedLexical(n);
    RereadSame(n);
    WellFormedChain(n);
    if PostText(n) == "" { OnlyBase(n); }
    ChainRereads(n, depth, u);
  }

  lemma OnlyBase(n: Node)
    requires PostText(n) == ""
    ensures Base(n) == n
  {
    hide Print, PrintList;
  }

  // ---- Postfix nodes on operator nodes -------------------------------------

  /** Where a member access goes when it is printed behind a tree with outer operators:
      to the last operand. */
  function Moved(n: Node, prop: string): Node
  {
    match n
    case Unary(op, a) => Unary(op, Member(a, prop))
    case Binary(op, l, r) => Binary(op, l, Member(r, prop))
    case Ternary(c, t, e) => Ternary(c, t, Member(e, prop))
    case _ => Member(n, prop)
  }

  lemma MovedParses(n: Node, prop: string)
    requires WellFormed(n) && !Atom(n) && AllIdent(prop)
    ensures ParseExpr(Print(Member(n, prop))) == Expression(Moved(n, prop))
  {
    hide ParseExpr, Print, WellFormed, Lexical;
    WellFormedLexical(n);
    RereadSame(n);
    assert Lexical(Member(n, prop)) by { MemberLexical(n, prop); }
    PrintedIsReread(Member(n, prop));
  }

  lemma MemberLexical(n: Node, prop: string)
    ensures Lexical(Member(n, prop)) <==> Lexical(n) && AllIdent(prop)
  {}

  /** The condition of RoundTripIffWellFormed at one postfix node: its operand is a primary
      or postfix tree, and an integer literal does not swallow the point. */
  lemma MemberRoundTripIff(n: Node, prop: string)
    requires WellFormed(n) && AllIdent(prop)
    ensures ParseExpr(Print(Member(n, prop))) == Expression(Member(n, prop)) <==> Atom(n) && PointOk(n, prop)
  {
    hide ParseExpr, Print;
    RoundTripIffWellFormed(Member(n, prop));
  }

  /** ... and at the other four. */
  lemma PostfixRoundTripIff(n: Node, ty: string, name: string, args: seq<Node>, index: Node)
    requires WellFormed(n) && IsTypeName(ty) && AllIdent(name) && WellFormed(index)
    requires forall i :: 0 <= i < |args| ==> WellFormed(args[i])
    ensures ParseExpr(Print(Cast(n, ty))) == Expression(Cast(n, ty)) <==> Atom(n)
    ensures ParseExpr(Print(Scope(n, name))) == Expression(Scope(n, name)) <==> Atom(n)
    ensures ParseExpr(Print(Call(n, args))) == Expression(Call(n, args)) <==> Atom(n)
    ensures ParseExpr(Print(Subscript(n, index))) == Expression(Subscript(n, index)) <==> Atom(n)
  {
    hide ParseExpr, Print;
    RoundTripIffWellFormed(Cast(n, ty));
    RoundTripIffWellFormed(Scope(n, name));
    RoundTripIffWellFormed(Call(n, args));
    RoundTripIffWellFormed(Subscript(n, index));
  }
}
