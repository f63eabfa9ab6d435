/** How the preprocessor splits the arguments of printed macro invocations. */
module CMacros {
  import opened CTokens
  import opened CParser
  import opened CPrinter
  import opened CPrintable

  /** Only commas outside of all parentheses are counted. */
  function Seen(n: nat, depth: nat): nat { if depth == 0 then n else 0 }

  /** Counting passes over the text of an expression, in which parentheses are balanced. */
  lemma {:induction false} CommasTokens(e: Expr, cur: nat, k: Toks, depth: nat)
    ensures Commas(Tokens(e, cur, k), depth) == Seen(OpenCommas(e, cur), depth) + Commas(k, depth)
    decreases Depth(e), 2
  {
    if NeedsParentheses(e, cur) {
      CommasBody(e, X(RParen, k), depth + 1);
    } else {
      CommasBody(e, k, depth);
    }
  }

  lemma {:induction false} CommasBody(e: Expr, k: Toks, depth: nat)
    ensures Commas(BodyTokens(e, k), depth) == Seen(BodyCommas(e), depth) + Commas(k, depth)
    decreases Depth(e), 1
  {
    match e
    case Leaf(_) =>
    case Undef(_) => CommasMacro(e, k, depth);
    case Aggregate(_, _) => CommasMacro(e, k, depth);
    case Intrinsic(_, _) => CommasMacro(e, k, depth);
    case IntrinsicCast(_, _, _) => CommasMacro(e, k, depth);
    case BitCast(_, _) => CommasMacro(e, k, depth);
    case Access(_, _, _) => CommasPostfix(e, k, depth);
    case Subscript(_, _) => CommasPostfix(e, k, depth);
    case Call(_, _) => CommasCall(e, k, depth);
    case PostStep(_, _) => CommasPostfix(e, k, depth);
    case Implicit(x) => CommasTokens(Strip(x), Prec(e) - 1, k, depth);
    case Cast(t, x) =>
      TypeInParentheses(t, Tokens(x, PrefixLevel - 1, k), depth);
      CommasTokens(x, PrefixLevel - 1, k, depth);
    case Prefix(op, x) =>
      assert PrefixSym(op) != LParen && PrefixSym(op) != RParen && PrefixSym(op) != Sym.Comma;
      CommasTokens(x, PrefixLevel - 1, k, depth);
    case Infix(_, _, _) => CommasInfix(e, k, depth);
    case Ternary(_, _, _) => CommasTernary(e, k, depth);
  }

  lemma {:induction false} CommasMacro(e: Expr, k: Toks, depth: nat)
    requires e.Undef? || e.Aggregate? || e.Intrinsic? || e.IntrinsicCast? || e.BitCast?
    ensures Commas(BodyTokens(e, k), depth) == Seen(BodyCommas(e), depth) + Commas(k, depth)
    decreases Depth(e), 0
  {
    match e
    case Undef(t) => TypeInParentheses(t, k, depth);
    case Aggregate(t, es) =>
      TypeInParentheses(t, X(LBrace, ListTokens(es, X(RBrace, k))), depth);
      CommasList(es, X(RBrace, k), depth);
    case Intrinsic(_, es) => CommasList(es, X(RParen, k), depth + 1);
    case IntrinsicCast(_, t, x) =>
      TypedArgument(t, Tokens(x, PrimaryLevel, X(RParen, k)), depth);
      CommasTokens(x, PrimaryLevel, X(RParen, k), depth + 1);
    case BitCast(t, x) =>
      TypedArgument(t, Tokens(x, ParenthesesLevel, X(RParen, k)), depth);
      CommasTokens(x, ParenthesesLevel, X(RParen, k), depth + 1);
  }

  lemma {:induction false} CommasPostfix(e: Expr, k: Toks, depth: nat)
    requires e.Access? || e.Subscript? || e.PostStep?
    ensures Commas(BodyTokens(e, k), depth) == Seen(BodyCommas(e), depth) + Commas(k, depth)
    decreases Depth(e), 0
  {
    match e
    case Access(x, arrow, f) =>
      CommasTokens(x, PostfixLevel - 1, X(if arrow then Arrow else Dot, T(Word(f), k)), depth);
    case Subscript(x, i) =>
      CommasTokens(x, PostfixLevel - 1, X(LBracket, Tokens(i, CommaLevel, X(RBracket, k))), depth);
      CommasTokens(i, CommaLevel, X(RBracket, k), depth);
    case PostStep(inc, x) => CommasTokens(x, PostfixLevel, X(if inc then PlusPlus else MinusMinus, k), depth);
  }

  lemma {:induction false} CommasCall(e: Expr, k: Toks, depth: nat)
    requires e.Call?
    ensures Commas(BodyTokens(e, k), depth) == Seen(BodyCommas(e), depth) + Commas(k, depth)
    decreases Depth(e), 0
  {
    CommasTokens(e.fun, PostfixLevel - 1, X(LParen, ListTokens(e.es, X(RParen, k))), depth);
    CommasList(e.es, X(RParen, k), depth + 1);
  }

  lemma {:induction false} CommasTernary(e: Expr, k: Toks, depth: nat)
    requires e.Ternary?
    ensures Commas(BodyTokens(e, k), depth) == Seen(BodyCommas(e), depth) + Commas(k, depth)
    decreases Depth(e), 0
  {
    var t := Tokens(e.b, TernaryLevel - 1, k);
    var s := Tokens(e.a, TernaryLevel, X(Colon, t));
    CommasTokens(e.c, TernaryLevel, X(Question, s), depth);
    CommasTokens(e.a, TernaryLevel, X(Colon, t), depth);
    CommasTokens(e.b, TernaryLevel - 1, k, depth);
  }

  lemma {:induction false} CommasInfix(e: Expr, k: Toks, depth: nat)
    requires e.Infix?
    ensures Commas(BodyTokens(e, k), depth) == Seen(BodyCommas(e), depth) + Commas(k, depth)
    decreases Depth(e), 0
  {
    var s, t := InfixSym(e.o), Tokens(e.r, RightLevel(e.o), k);
    assert s != LParen && s != RParen && (s == Sym.Comma <==> e.o == CommaOp);
    CommasTokens(e.l, LeftLevel(e.o), X(s, t), depth);
    CommasTokens(e.r, RightLevel(e.o), k, depth);
    assert Commas(X(s, t), depth) == Seen(if e.o == CommaOp then 1 else 0, depth) + Commas(t, depth);
  }

  lemma TypeInParentheses(t: string, k: Toks, depth: nat)
    ensures Commas(X(LParen, T(TypeName(t), X(RParen, k))), depth) == Commas(k, depth)
  {
    assert Commas(T(TypeName(t), X(RParen, k)), depth + 1) == Commas(X(RParen, k), depth + 1);
  }

  lemma TypedArgument(t: string, s: Toks, depth: nat)
    ensures Commas(X(LParen, T(TypeName(t), X(Sym.Comma, s))), depth) == Commas(s, depth + 1)
  {
    assert Commas(T(TypeName(t), X(Sym.Comma, s)), depth + 1) == Commas(X(Sym.Comma, s), depth + 1);
  }

  lemma {:induction false} CommasList(es: Exprs, k: Toks, depth: nat)
    ensures Commas(ListTokens(es, k), depth) == Seen(OpenCommasAll(es) + Between(es), depth) + Commas(k, depth)
    decreases DepthAll(es), 3
  {
    if es.Item? {
      CommasTokens(es.e, CommaLevel, MoreTokens(es.rest, k), depth);
      CommasMore(es.rest, k, depth);
    }
  }

  lemma {:induction false} CommasMore(es: Exprs, k: Toks, depth: nat)
    ensures Commas(MoreTokens(es, k), depth)
            == Seen(OpenCommasAll(es) + (if es.Item? then 1 + Between(es) else 0), depth) + Commas(k, depth)
    decreases DepthAll(es), 3
  {
    if es.Item? {
      CommasTokens(es.e, CommaLevel, MoreTokens(es.rest, k), depth);
      CommasMore(es.rest, k, depth);
    }
  }

  /** An intrinsic has as many arguments as operands exactly if no operand shows a comma. */
  lemma IntrinsicArguments(es: Exprs, k: Toks)
    ensures Commas(ListTokens(es, X(RParen, k)), 0) == OpenCommasAll(es) + Separators(EraseAll(es))
  {
    CommasList(es, X(RParen, k), 0);
    BetweenSeparators(es);
  }

  lemma {:induction false} BetweenSeparators(es: Exprs)
    ensures Separators(EraseAll(es)) == Between(es)
  {
    if es.Item? { BetweenSeparators(es.rest); }
  }
}
