/** Where whole expressions stand inside others: ternaries, array literals, arguments. */
module ExprNesting {
  import opened ExprAst
  import opened ExprGrammar
  import opened ExprRoundTrip
  import opened ExprChain

  /** A chain, or a ternary whose condition is a chain. */
  datatype Full = Plain(c: Chain) | Cond(c: Chain, t: Full, e: Full)

  ghost predicate FullOk(f: Full)
  {
    ChainOk(f.c) && (f.Cond? ==> FullOk(f.t) && FullOk(f.e))
  }

  function FullText(f: Full, u: string): string
  {
    match f
    case Plain(c) => ChainText(c, u)
    case Cond(c, t, e) => ChainText(c, "?" + FullText(t, ":" + FullText(e, u)))
  }

  /** The whole chain in front of the question mark is the condition, and the branches extend
      as far as they can: ternaries group to the right. */
  ghost predicate Means(f: Full, n: Node)
  {
    match f
    case Plain(c) => Spells(c, n)
    case Cond(c, t, e) => n.Ternary? && Spells(c, n.c) && Means(t, n.t) && Means(e, n.e)
  }

  predicate Closing(u: string)
  {
    u == "" || u[0] in {')', ']', ','} || (u[0] == ':' && !(|u| > 1 && u[1] == ':'))
  }

  lemma TailCloses(n: Node, saw: bool, u: string)
    requires Closing(u)
    ensures Tail(0, n, saw, u) == Ok(n, u)
  {
    hide NextPostfix, NextInfix, Parse, SkipWhitespace;
    SkipNothing(u);
    ClosingTakesNothing(n, saw, u);
  }

  lemma ClosingTakesNothing(n: Node, saw: bool, u: string)
    requires Closing(u)
    ensures NextPostfix(n, u) == NoPostfix && NextInfix(0, saw, u) == NoInfix
  {
    hide Parse, Args, Span, TypeArgument;
  }

  lemma {:induction false} FullStarts(f: Full, u: string)
    requires FullOk(f)
    ensures FullText(f, u) != "" && SkipWhitespace(FullText(f, u)) != "" &&
            (IsIdent(SkipWhitespace(FullText(f, u))[0]) || SkipWhitespace(FullText(f, u))[0] in {'[', '(', '-', '~', '+'})
    ensures FullText(f, u)[0] != ':'
  {
    hide TermText, LinksText, TermOk, SkipWhitespace;
    var v := if f.Plain? then u else "?" + FullText(f.t, ":" + FullText(f.e, u));
    var s := TermText(f.c.first, LinksText(f.c.links, f.c.trail + v));
    TermStarts(f.c.first, LinksText(f.c.links, f.c.trail + v));
    SkipBlank(f.c.lead, s);
    SkipNothing(s);
    if f.c.lead == "" { assert f.c.lead + s == s; }
  }

  /** An expression in front of text that closes it. */
  lemma {:induction false} FullParses(f: Full, n: Node, u: string)
    requires FullOk(f) && Means(f, n) && Closing(u)
    ensures Parse(0, FullText(f, u)) == Ok(n, u)
    decreases f
  {
    hide Parse, Tail, Spells, ChainOk, ChainText;
    match f {
      case Plain(c) =>
        SpelledParses(0, c, n, u);
        TailCloses(n, Compared(n), u);
      case Cond(c, t, e) =>
        var last := FullText(e, u);
        var text := FullText(t, ":" + last);
        FullStarts(e, u);
        SpelledParses(0, c, n.c, "?" + text);
        FullParses(t, n.t, ":" + last);
        FullParses(e, n.e, u);
        QuestionParses(n.c, Compared(n.c), text, n.t, last, n.e, u);
    }
  }

  lemma QuestionParses(c: Node, saw: bool, text: string, t: Node, last: string, e: Node, u: string)
    requires Parse(0, text) == Ok(t, ":" + last) && Parse(0, last) == Ok(e, u)
    ensures Tail(0, c, saw, "?" + text) == Ok(Ternary(c, t, e), u)
  {
    hide Parse, NextPostfix, NextInfix, SkipWhitespace;
    SkipNothing("?" + text);
    QuestionNext(c, saw, text);
    assert ("?" + text)[1..] == text && (":" + last)[1..] == last;
  }

  lemma QuestionNext(n: Node, saw: bool, text: string)
    ensures NextPostfix(n, "?" + text) == NoPostfix && NextInfix(0, saw, "?" + text) == Question
  {
    hide Parse, Span, Args, TypeArgument;
  }

  /** Ternaries: `a ? b : c ? d : e` and `a ? b ? c : d : e` as expected, with any chains. */
  lemma TernaryParses(f: Full, n: Node)
    requires FullOk(f) && Means(f, n)
    ensures ParseExpr(FullText(f, "")) == Expression(n)
  {
    hide Parse, FullText;
    FullParses(f, n, "");
    FullStarts(f, "");
  }

  // ---- Lists -----------------------------------------------------------------

  ghost predicate ListMeans(fs: seq<Full>, ns: seq<Node>)
  {
    |fs| == |ns| && forall i :: 0 <= i < |fs| ==> FullOk(fs[i]) && Means(fs[i], ns[i])
  }

  /** Items separated by commas; each brings its whitespace. */
  function ListText(fs: seq<Full>, u: string): string
  {
    if fs == [] then u else if |fs| == 1 then FullText(fs[0], u) else FullText(fs[0], "," + ListText(fs[1..], u))
  }

  /** What stands behind an item. */
  function MoreText(fs: seq<Full>, u: string): string
  {
    if fs == [] then u else "," + ListText(fs, u)
  }

  lemma ListSplits(fs: seq<Full>, u: string)
    requires fs != []
    ensures ListText(fs, u) == FullText(fs[0], MoreText(fs[1..], u))
  {}

  lemma ItemParses(fs: seq<Full>, ns: seq<Node>, u: string)
    requires fs != [] && ListMeans(fs, ns) && Closing(u)
    ensures Parse(0, ListText(fs, u)) == Ok(ns[0], MoreText(fs[1..], u))
    ensures var s := SkipWhitespace(ListText(fs, u)); s != "" && s[0] !in {']', ')', ','}
    ensures Parse(0, SkipWhitespace(ListText(fs, u))) == Ok(ns[0], MoreText(fs[1..], u))
  {
    hide Parse, FullText, Means, FullOk, SkipWhitespace;
    ListSplits(fs, u);
    var v := MoreText(fs[1..], u);
    FullParses(fs[0], ns[0], v);
    FullStarts(fs[0], v);
    SkippedParse(FullText(fs[0], v));
  }

  lemma SkippedParse(s: string)
    ensures Parse(0, SkipWhitespace(s)) == Parse(0, s)
  {
    hide Primary, Tail, SkipWhitespace;
    SkipTwice(s);
  }

  /** The loop of an array literal; a comma may precede the bracket. */
  lemma {:induction false} MoreItemsParse(done: seq<Node>, fs: seq<Full>, ns: seq<Node>, comma: bool, gap: string, u: string)
    requires ListMeans(fs, ns) && Blank(gap)
    ensures MoreItems(done, MoreText(fs, (if comma then "," + gap else "") + "]" + u)) == Ok(done + ns, u)
    decreases |fs|
  {
    hide Parse, Means, FullOk, SkipWhitespace, FullText, ListText;
    var close := (if comma then "," + gap else "") + "]" + u;
    var s := MoreText(fs, close);
    if fs == [] {
      assert done + ns == done;
      BracketCloses(done, comma, gap, u);
    } else {
      ItemParses(fs, ns, close);
      SkipNothing(s);
      assert s[1..] == ListText(fs, close);
      MoreItemsParse(done + [ns[0]], fs[1..], ns[1..], comma, gap, u);
      assert done + [ns[0]] + ns[1..] == done + ns;
    }
  }

  lemma BracketCloses(done: seq<Node>, comma: bool, gap: string, u: string)
    requires Blank(gap)
    ensures MoreItems(done, (if comma then "," + gap else "") + "]" + u) == Ok(done, u)
  {
    hide Parse, SkipWhitespace;
    var close := "]" + u;
    var s := (if comma then "," + gap else "") + "]" + u;
    SkipNothing(s);
    SkipNothing(close);
    SkipBlank(gap, close);
    assert close[1..] == u;
    if comma { assert s[1..] == gap + close; } else { assert s == close; }
  }

  /** An array literal holds its items, with or without a comma behind the last one. */
  lemma ArrayParses(fs: seq<Full>, ns: seq<Node>, comma: bool, gap: string)
    requires ListMeans(fs, ns) && Blank(gap) && (comma ==> fs != [])
    ensures ParseExpr("[" + ListText(fs, (if comma then "," + gap else "") + "]")) == Expression(Array(ns))
  {
    hide Parse, Tail, Primary, MoreItems, Means, FullOk, SkipWhitespace, FullText, ListText;
    var close := (if comma then "," + gap else "") + "]";
    var s := "[" + ListText(fs, close);
    assert s[1..] == ListText(fs, close);
    PrimaryBracket(s);
    if fs == [] {
      EmptyText(close);
      assert s[1..] == "]";
      SkipNothing("]");
      assert Primary(s) == Ok(Array(ns), "");
    } else {
      ItemParses(fs, ns, close);
      assert close == (if comma then "," + gap else "") + "]" + "";
      MoreItemsParse([ns[0]], fs[1..], ns[1..], comma, gap, "");
      assert [ns[0]] + ns[1..] == ns;
      assert Primary(s) == Ok(Array(ns), "");
    }
    PrimaryMakesParse(0, s, Array(ns), "");
    TailStops(0, Array(ns), false, "");
  }

  lemma EmptyText(u: string)
    ensures ListText([], u) == u
  {}

  // ---- Calls -----------------------------------------------------------------

  /** The loop over the arguments, up to text that is no comma. */
  lemma {:induction false} MoreArgsParse(done: seq<Node>, fs: seq<Full>, ns: seq<Node>, u: string)
    requires ListMeans(fs, ns) && u != "" && u[0] == ')'
    ensures MoreArgs(done, MoreText(fs, u)) == Ok(done + ns, u)
    decreases |fs|
  {
    hide Parse, Means, FullOk, SkipWhitespace, FullText, ListText;
    var s := MoreText(fs, u);
    SkipNothing(s);
    if fs == [] {
      assert done + ns == done;
    } else {
      ItemParses(fs, ns, u);
      assert s[1..] == ListText(fs, u);
      MoreArgsParse(done + [ns[0]], fs[1..], ns[1..], u);
      assert done + [ns[0]] + ns[1..] == done + ns;
    }
  }

  /** ... and a comma with nothing behind it is an error. */
  lemma {:induction false} MoreArgsFail(done: seq<Node>, fs: seq<Full>, ns: seq<Node>, gap: string)
    requires ListMeans(fs, ns) && Blank(gap)
    ensures MoreArgs(done, MoreText(fs, "," + gap + ")")) == Err(Syntax)
    decreases |fs|
  {
    hide Parse, Means, FullOk, SkipWhitespace, FullText, ListText;
    var u := "," + gap + ")";
    var s := MoreText(fs, u);
    SkipNothing(s);
    if fs == [] {
      assert s[1..] == gap + ")";
      SkipBlank(gap, ")");
      SkipNothing(")");
      ParenIsNoPrimary();
    } else {
      ItemParses(fs, ns, u);
      assert s[1..] == ListText(fs, u);
      MoreArgsFail(done + [ns[0]], fs[1..], ns[1..], gap);
    }
  }

  lemma ParenIsNoPrimary()
    ensures Parse(0, ")") == Err(Syntax)
  {
    hide Tail, Primary, SkipWhitespace;
    SkipNothing(")");
    NoPrimary();
  }

  lemma NoPrimary()
    ensures Primary(")") == Err(Syntax) && Primary("") == Err(Syntax)
  {
    hide Parse, Number, Span, TypeArgument, MoreItems;
  }

  /** A call holds its arguments; unlike an array literal it allows no comma behind the last. */
  lemma CallParses(name: string, fs: seq<Full>, ns: seq<Node>, gap: string)
    requires IsName(name) && ListMeans(fs, ns) && Blank(gap)
    ensures ParseExpr(name + ("(" + ListText(fs, ")"))) == Expression(Call(Ident(name), ns))
    ensures fs != [] ==> ParseExpr(name + ("(" + ListText(fs, "," + gap + ")"))) == Failure
  {
    hide Parse, Means, FullOk, FullText, ListText, Args;
    var s := "(" + ListText(fs, ")");
    ArgsParse(fs, ns);
    CallBehind(name, s);
    CallTaken(Ident(name), s, ns);
    TailStops(0, Call(Ident(name), ns), false, "");
    if fs != [] {
      var s' := "(" + ListText(fs, "," + gap + ")");
      ArgsFail(fs, ns, gap);
      CallBehind(name, s');
      CallError(Ident(name), s');
      TailFails(0, Ident(name), s', Syntax);
    }
  }

  lemma ArgsParse(fs: seq<Full>, ns: seq<Node>)
    requires ListMeans(fs, ns)
    ensures Args(ListText(fs, ")")) == Ok(ns, ")")
  {
    hide Parse, MoreArgs, Means, FullOk, SkipWhitespace, FullText, ListText;
    if fs == [] {
      EmptyText(")");
      SkipNothing(")");
    } else {
      ItemParses(fs, ns, ")");
      MoreArgsParse([ns[0]], fs[1..], ns[1..], ")");
      assert [ns[0]] + ns[1..] == ns;
    }
  }

  lemma ArgsFail(fs: seq<Full>, ns: seq<Node>, gap: string)
    requires fs != [] && ListMeans(fs, ns) && Blank(gap)
    ensures Args(ListText(fs, "," + gap + ")")) == Err(Syntax)
  {
    hide Parse, MoreArgs, Means, FullOk, SkipWhitespace, FullText, ListText;
    ItemParses(fs, ns, "," + gap + ")");
    MoreArgsFail([ns[0]], fs[1..], ns[1..], gap);
  }

  lemma CallBehind(name: string, s: string)
    requires IsName(name) && s != "" && s[0] == '('
    ensures Parse(0, name + s) == Tail(0, Ident(name), false, s)
  {
    hide Primary, Tail, Parse;
    WordParses(name, s);
    PrimaryMakesParse(0, name + s, Ident(name), s);
  }

  lemma CallTaken(n: Node, s: string, args: seq<Node>)
    requires s != "" && s[0] == '(' && Args(s[1..]) == Ok(args, ")")
    ensures Tail(0, n, false, s) == Tail(0, Call(n, args), false, "")
  {
    hide Parse, Tail, Args, Span, TypeArgument;
    assert ")"[1..] == "";
    TailApplies(0, n, s, Call(n, args), "");
  }

  lemma CallError(n: Node, s: string)
    requires s != "" && s[0] == '(' && Args(s[1..]) == Err(Syntax)
    ensures NextPostfix(n, s) == PostfixError(Syntax)
  {
    hide Parse, Args, Span, TypeArgument;
  }

  // ---- Words that are no operators -------------------------------------------

  /** A word behind an operand is an error, also if it only starts like an operator. */
  lemma WordBehindFails(a: Node, gap: string, word: string)
    requires Operand(a) && Blank(gap) && gap != "" && word != "" && IsIdentStart(word[0]) && AllIdent(word)
    ensures ParseExpr(Print(a) + (gap + word)) == Failure
  {
    hide Parse, Tail, Print, WellFormed, SkipWhitespace;
    WellFormedLexical(a);
    PrintStarts(a);
    AtomParses(a, 0, gap + word);
    SkipBlank(gap, word);
    SkipNothing(word);
    TailSkips(0, a, false, gap + word);
    WordTaken(a, word);
  }

  lemma WordTaken(a: Node, word: string)
    requires word != "" && IsIdentStart(word[0]) && AllIdent(word)
    ensures Tail(0, a, false, word) ==
            if word == "and" || word == "or" then Err(Syntax) else Ok(a, word)
  {
    hide Parse, NextPostfix, NextInfix, SkipWhitespace;
    SkipNothing(word);
    NoPostfixWord(a, word);
    NoInfixWord(word);
    NothingParses();
    if word == "and" { assert word[3..] == ""; }
    if word == "or" { assert word[2..] == ""; }
  }

  lemma NoPostfixWord(a: Node, word: string)
    requires word != "" && IsIdentStart(word[0])
    ensures NextPostfix(a, word) == NoPostfix
  {
    hide Parse, Span, Args, TypeArgument;
  }

  lemma NoInfixWord(word: string)
    requires word != "" && IsIdentStart(word[0]) && AllIdent(word)
    ensures NextInfix(0, false, word) ==
            if word == "and" then Operator(LogicalAnd, 3) else if word == "or" then Operator(LogicalOr, 2) else NoInfix
  {
    if "and" <= word && |word| == 3 { assert word == "and"; }
    if "or" <= word && |word| == 2 { assert word == "or"; }
  }

  lemma NothingParses()
    ensures forall depth :: Parse(depth, "") == Err(Syntax)
  {
    hide Tail, Primary, SkipWhitespace;
    SkipNothing("");
    NoPrimary();
  }

  // ---- Single forms ----------------------------------------------------------

  /** The forms that are no chains. */
  lemma SingleForms(name: string, prop: string, ty: string)
    requires IsName(name) && AllIdent(prop) && IsTypeName(ty)
    ensures ParseExpr("true") == Expression(Bool(true)) && ParseExpr("false") == Expression(Bool(false))
    ensures ParseExpr(name) == Expression(Ident(name))
    ensures ParseExpr("sizeof<" + ty + ">") == Expression(Sizeof(ty))
    ensures ParseExpr("bitsizeof<" + ty + ">") == Expression(BitSizeof(ty))
    ensures ParseExpr(name + "." + prop) == Expression(Member(Ident(name), prop))
    ensures ParseExpr(name + "::" + prop) == Expression(Scope(Ident(name), prop))
    ensures ParseExpr(name + ".as<" + ty + ">") == Expression(Cast(Ident(name), ty))
  {
    hide ParseExpr;
    ParserUndoesPrinter(Bool(true));
    ParserUndoesPrinter(Bool(false));
    ParserUndoesPrinter(Ident(name));
    ParserUndoesPrinter(Sizeof(ty));
    ParserUndoesPrinter(BitSizeof(ty));
    ParserUndoesPrinter(Member(Ident(name), prop));
    ParserUndoesPrinter(Scope(Ident(name), prop));
    ParserUndoesPrinter(Cast(Ident(name), ty));
  }

  /** A subscript is any expression in brackets, and so is a group in parentheses. */
  lemma BracketsParse(name: string, f: Full, n: Node)
    requires IsName(name) && FullOk(f) && Means(f, n)
    ensures ParseExpr(name + ("[" + FullText(f, "]"))) == Expression(Subscript(Ident(name), n))
    ensures ParseExpr("(" + FullText(f, ")")) == Expression(n)
  {
    hide Parse, Tail, Primary, FullText, Means, FullOk;
    var s, g := "[" + FullText(f, "]"), "(" + FullText(f, ")");
    FullParses(f, n, "]");
    FullParses(f, n, ")");
    assert s[1..] == FullText(f, "]") && g[1..] == FullText(f, ")");
    SubscriptBehind(name, s);
    SubscriptTaken(Ident(name), s, n);
    TailStops(0, Subscript(Ident(name), n), false, "");
    GroupTaken(g, n);
    PrimaryMakesParse(0, g, n, "");
    TailStops(0, n, false, "");
  }

  lemma SubscriptBehind(name: string, s: string)
    requires IsName(name) && s != "" && s[0] == '['
    ensures Parse(0, name + s) == Tail(0, Ident(name), false, s)
  {
    hide Primary, Tail, Parse;
    WordParses(name, s);
    PrimaryMakesParse(0, name + s, Ident(name), s);
  }

  lemma SubscriptTaken(n: Node, s: string, i: Node)
    requires s != "" && s[0] == '[' && Parse(0, s[1..]) == Ok(i, "]")
    ensures Tail(0, n, false, s) == Tail(0, Subscript(n, i), false, "")
  {
    hide Parse, Tail, Args, Span, TypeArgument;
    assert "]"[1..] == "";
    TailApplies(0, n, s, Subscript(n, i), "");
  }

  lemma GroupTaken(s: string, n: Node)
    requires s != "" && s[0] == '(' && Parse(0, s[1..]) == Ok(n, ")")
    ensures Primary(s) == Ok(n, "")
  {
    hide Parse, Number, Span, TypeArgument;
    assert ")"[1..] == "";
  }

  /** A type name without its closing bracket is an error. */
  lemma OpenTypeFails(name: string, ty: string)
    requires IsName(name) && IsTypeName(ty)
    ensures ParseExpr("sizeof<" + ty) == Failure && ParseExpr("bitsizeof<" + ty) == Failure
    ensures ParseExpr(name + ".as<" + ty) == Failure
  {
    hide Parse, TypeArgument;
    OpenType(ty);
    OpenSize("sizeof", ty);
    OpenSize("bitsizeof", ty);
    OpenCast(name, ty);
    assert "sizeof" + ("<" + ty) == "sizeof<" + ty && "bitsizeof" + ("<" + ty) == "bitsizeof<" + ty;
    assert name + (".as<" + ty) == name + ".as<" + ty;
  }

  lemma OpenType(ty: string)
    requires IsTypeName(ty)
    ensures TypeArgument(ty) == Err(Syntax)
  {
    SpanOver(InTypeName, ty, "");
    assert ty + "" == ty;
  }

  lemma OpenSize(w: string, ty: string)
    requires w in {"sizeof", "bitsizeof"} && TypeArgument(ty) == Err(Syntax)
    ensures Parse(0, w + ("<" + ty)) == Err(Syntax)
  {
    hide Primary, Tail, TypeArgument;
    SizeWord(w, ty);
    SkipNothing(w + ("<" + ty));
  }

  lemma OpenCast(name: string, ty: string)
    requires IsName(name) && TypeArgument(ty) == Err(Syntax)
    ensures Parse(0, name + (".as<" + ty)) == Err(Syntax)
  {
    hide Primary, Tail, Parse, NextPostfix, TypeArgument;
    var s := ".as<" + ty;
    WordParses(name, s);
    PrimaryMakesParse(0, name + s, Ident(name), s);
    OpenPostfix(Ident(name), ty);
    TailFails(0, Ident(name), s, Syntax);
  }

  lemma OpenPostfix(n: Node, ty: string)
    requires TypeArgument(ty) == Err(Syntax)
    ensures NextPostfix(n, ".as<" + ty) == PostfixError(Syntax)
  {
    hide Parse, Args, TypeArgument, Span;
    SpanOver(IsIdent, "as", "<" + ty);
    assert (".as<" + ty)[1..] == "as" + ("<" + ty) && ("<" + ty)[1..] == ty;
  }

  /** String literals, f-strings, and numbers with a point or an exponent lead out of the model. */
  lemma LiteralsOutside(digits: string, u: string)
    requires digits != "" && forall i :: 0 <= i < |digits| ==> IsDigit(digits[i])
    ensures ParseExpr("\"" + u) == Outside && ParseExpr("'" + u) == Outside
    ensures ParseExpr("f\"" + u) == Outside && ParseExpr("f'" + u) == Outside
    ensures ParseExpr(digits + "." + digits) == Outside && ParseExpr(digits + "e" + digits) == Outside
    ensures ParseExpr("." + digits) == Outside
  {
    hide Parse, Primary;
    QuoteOutside('"', u);
    QuoteOutside('\'', u);
    FloatOutside(digits);
    assert "\"" + u == ['"'] + u && "'" + u == ['\''] + u;
    assert "f\"" + u == "f" + (['"'] + u) && "f'" + u == "f" + (['\''] + u);
    PrimaryOutside(['"'] + u);
    PrimaryOutside(['\''] + u);
    PrimaryOutside("f" + (['"'] + u));
    PrimaryOutside("f" + (['\''] + u));
    PrimaryOutside(digits + "." + digits);
    PrimaryOutside(digits + "e" + digits);
    PrimaryOutside("." + digits);
  }

  lemma PrimaryOutside(s: string)
    requires s != "" && !IsWhitespace(s[0]) && Primary(s) == Err(Unmodelled)
    ensures Parse(0, s) == Err(Unmodelled)
  {
    hide Primary, Tail;
    SkipNothing(s);
  }

  lemma QuoteOutside(quote: char, u: string)
    requires quote in {'"', '\''}
    ensures Primary([quote] + u) == Err(Unmodelled) && Primary("f" + ([quote] + u)) == Err(Unmodelled)
  {
    hide Parse, Number, Span;
    SpanOver(IsIdent, "f", [quote] + u);
  }

  lemma FloatOutside(digits: string)
    requires digits != "" && forall i :: 0 <= i < |digits| ==> IsDigit(digits[i])
    ensures Primary(digits + "." + digits) == Err(Unmodelled) && Primary(digits + "e" + digits) == Err(Unmodelled)
    ensures Primary("." + digits) == Err(Unmodelled)
  {
    hide Primary, Number;
    NumberOutside(digits, "." + digits);
    NumberOutside(digits, "e" + digits);
    NumberOutside("", "." + digits);
    assert digits + "." + digits == digits + ("." + digits) && digits + "e" + digits == digits + ("e" + digits);
    assert "" + ("." + digits) == "." + digits;
    DigitStarts(digits + ("." + digits));
    DigitStarts(digits + ("e" + digits));
    PointStarts("." + digits);
  }

  lemma PointStarts(s: string)
    requires |s| > 1 && s[0] == '.' && IsDigit(s[1])
    ensures Primary(s) == Number(s)
  {
    hide Parse, Number, Span;
  }

  lemma NumberOutside(digits: string, u: string)
    requires forall i :: 0 <= i < |digits| ==> IsDigit(digits[i])
    requires |u| > 1 && IsDigit(u[1]) && (u[0] == '.' || (u[0] == 'e' && digits != ""))
    ensures Number(digits + u) == Err(Unmodelled)
  {
    hide Numeral, Span, WithoutUnderscores, Prefixed;
    SpanOver(IsNumber, digits, u);
  }
}
