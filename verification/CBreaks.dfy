/** Reading the tokens of an expression with a shape that is printed wrongly: the parser fails, or it stops
    before an equals sign, at which nothing can go on. */
module CBreaks {
  import opened Wrappers
  import opened CTokens
  import opened CParser
  import opened CPrinter
  import opened CPrintable
  import opened CMacros
  import opened CRoundTrip

  predicate Broken(r: Out) { r.Done? ==> Starts(r.rest, Eq) }

  /** The tokens are legible, but the expression is not printable. */
  predicate Bad(e: Expr) { Legible(e) && !Printable(e) }

  predicate AllBad(es: Exprs) { AllLegible(es) && !AllPrintable(es) }

  // ----- failure spreads -----

  lemma {:induction false} AllFail(m: nat, s: Toks)
    requires IsLevel(m) && CastExpr(s).Fail? && Unary(s).Fail?
    ensures Binary(m, s).Fail?
    decreases 15 - m
  {
    if m == 1 {
      AllFail(3, s);
      OrFails(s);
    } else if m < 12 {
      AllFail(m + 1, s);
      assert Operand(m, s).Fail?;
    }
  }

  lemma OrFails(s: Toks)
    requires Binary(3, s).Fail?
    ensures Conditional(s).Fail? && Assignment(s).Fail? && Binary(1, s).Fail?
  {
    if Unary(s).Done? && Starts(Unary(s).rest, Eq) { UnaryBeforeEq(3, s); }
    assert Conditional(s).Fail?;
    assert Assignment(s).Fail?;
    assert Operand(1, s) == Assignment(s);
  }

  lemma {:induction false} FailsBelow(m: nat, q: nat, s: Toks)
    requires IsLevel(m) && 3 <= q <= 12 && m <= q && Binary(q, s).Fail?
    ensures Binary(m, s).Fail?
    decreases q
  {
    if m < q {
      if q == 3 {
        OrFails(s);
      } else {
        assert Operand(q - 1, s).Fail? && Binary(q - 1, s).Fail?;
        FailsBelow(m, q - 1, s);
      }
    }
  }

  lemma BrokenComma(s: Toks)
    requires Broken(Assignment(s))
    ensures Broken(Binary(1, s))
  {
    var x := Assignment(s);
    assert Operand(1, s) == x;
    if x.Done? { assert Loop(1, x.e, x.rest) == Done(x.e, x.rest); }
  }

  lemma ParenFails(s: Toks)
    requires HeadOk(s) && Broken(Binary(1, s))
    ensures Primary(X(LParen, s)).Fail? && !StartsCast(X(LParen, s))
  {}

  /** Tokens with which a postfix expression begins. */
  predicate PostfixHead(s: Toks) {
    s.T? && (s.hd.Word? || s.hd.Macro? || s.hd == Token.Sym(LParen)) && !StartsCast(s)
  }

  lemma PrimaryFails(s: Toks)
    requires PostfixHead(s) && Postfix(s).Fail?
    ensures Unary(s).Fail? && CastExpr(s).Fail?
  {}

  lemma {:induction false} HeadOfPostfix(e: Expr, k: Toks)
    requires Prec(e) >= PostfixLevel
    ensures PostfixHead(BodyTokens(e, k))
    decreases Depth(e), 0
  {
    match e
    case Access(x, arrow, f) => HeadOfBase(x, PostfixLevel - 1, X(if arrow then Arrow else Dot, T(Word(f), k)));
    case Subscript(x, i) => HeadOfBase(x, PostfixLevel - 1, X(LBracket, Tokens(i, CommaLevel, X(RBracket, k))));
    case Call(f, es) => HeadOfBase(f, PostfixLevel - 1, X(LParen, ListTokens(es, X(RParen, k))));
    case PostStep(inc, x) => HeadOfBase(x, PostfixLevel, X(if inc then PlusPlus else MinusMinus, k));
    case Implicit(x) =>
      StripFacts(x);
      HeadOfBase(Strip(x), Prec(e) - 1, k);
    case _ =>
  }

  lemma {:induction false} HeadOfBase(e: Expr, cur: nat, k: Toks)
    requires cur >= PrefixLevel
    ensures PostfixHead(Tokens(e, cur, k))
    decreases Depth(e), 1
  {
    if NeedsParentheses(e, cur) { HeadBody(e, X(RParen, k)); } else { HeadOfPostfix(e, k); }
  }

  // ----- lists -----

  lemma {:induction false} BreakList(es: Exprs, close: Sym, types: bool, k: Toks)
    requires AllBad(es) && (close == RParen || close == RBrace)
    ensures ArgList(close, types, ListTokens(es, X(close, k))).FailArgs?
    decreases DepthAll(es), 9
  {
    Head(es.e, CommaLevel, MoreTokens(es.rest, X(close, k)));
    BreakMore(es, close, types, k);
  }

  lemma {:induction false} BreakMore(es: Exprs, close: Sym, types: bool, k: Toks)
    requires AllBad(es) && (close == RParen || close == RBrace)
    ensures ArgMore(close, types, ListTokens(es, X(close, k))).FailArgs?
    decreases DepthAll(es), 8
  {
    var r := MoreTokens(es.rest, X(close, k));
    Head(es.e, CommaLevel, r);
    if Printable(es.e) {
      ReadAssignment(es.e, r);
      assert es.rest.Item? by { assert AllPrintable(Empty); }
      BreakMore(es.rest, close, types, k);
      assert r == X(Sym.Comma, ListTokens(es.rest, X(close, k)));
    } else {
      BreakAssignment(es.e, r);
    }
  }

  // ----- primary and postfix expressions -----

  lemma {:induction false} BreakPrimary(e: Expr, k: Toks)
    requires Bad(e) && !e.Implicit? && Prec(e) == PrimaryLevel
    ensures Primary(BodyTokens(e, k)).Fail?
    decreases Depth(e), 1
  {
    match e
    case Leaf(_) =>
    case Undef(_) =>
    case Aggregate(t, es) => BreakAggregate(e, k);
    case Intrinsic(_, _) => BreakIntrinsic(e, k);
    case IntrinsicCast(_, _, _) => BreakIntrinsicCast(e, k);
  }

  lemma {:induction false} BreakAggregate(e: Expr, k: Toks)
    requires Bad(e) && e.Aggregate?
    ensures Primary(BodyTokens(e, k)).Fail?
    decreases Depth(e), 0
  {
    if e.es.Item? { BreakList(e.es, RBrace, false, k); }
    var s := ListTokens(e.es, X(RBrace, k));
    BraceFails(e.t, s);
  }

  lemma BraceFails(t: string, s: Toks)
    requires Starts(s, RBrace) || ArgList(RBrace, false, s).FailArgs?
    ensures Primary(X(LParen, T(TypeName(t), X(RParen, X(LBrace, s))))).Fail?
  {}

  lemma MacroFails(w: string, s: Toks)
    requires w != "bit_cast"
    requires ArgList(RParen, true, s).FailArgs? || Commas(s, 0) != Separators(ArgList(RParen, true, s).args)
    ensures Primary(T(Macro(w), X(LParen, s))).Fail?
  {}

  lemma {:induction false} BreakIntrinsic(e: Expr, k: Toks)
    requires Bad(e) && e.Intrinsic?
    ensures Primary(BodyTokens(e, k)).Fail?
    decreases Depth(e), 0
  {
    if AllPrintable(e.es) {
      ReadList(e.es, RParen, true, k);
      IntrinsicArguments(e.es, k);
    } else {
      BreakList(e.es, RParen, true, k);
    }
    RuntimeMacroName(e.w);
    MacroFails(RuntimeMacro(e.w), ListTokens(e.es, X(RParen, k)));
  }

  lemma {:induction false} BreakIntrinsicCast(e: Expr, k: Toks)
    requires Bad(e) && e.IntrinsicCast?
    ensures Primary(BodyTokens(e, k)).Fail?
    decreases Depth(e), 0
  {
    var s := Tokens(e.e, PrimaryLevel, X(RParen, k));
    Head(e.e, PrimaryLevel, X(RParen, k));
    if Printable(e.e) {
      ReadAtom(e.e, X(RParen, k));
      ReadTyped(e.t, s, Erase(e.e), k);
      CommasTokens(e.e, PrimaryLevel, X(RParen, k), 0);
    } else {
      BreakAtom(e.e, X(RParen, k));
      TypedFails(e.t, s);
    }
    RuntimeMacroName(e.w);
    MacroFails(RuntimeMacro(e.w), T(TypeName(e.t), X(Sym.Comma, s)));
  }

  lemma TypedFails(t: string, s: Toks)
    requires Assignment(s).Fail? && HeadOk(s)
    ensures ArgList(RParen, true, T(TypeName(t), X(Sym.Comma, s))).FailArgs?
  {
    assert ArgMore(RParen, true, s).FailArgs?;
  }

  lemma {:induction false} BreakPostfix(e: Expr, k: Toks)
    requires Bad(e) && !e.Implicit? && Prec(e) == PostfixLevel
    ensures Postfix(BodyTokens(e, k)).Fail?
    decreases Depth(e), 1
  {
    match e
    case Access(x, arrow, f) => BreakBase(x, PostfixLevel - 1, X(if arrow then Arrow else Dot, T(Word(f), k)));
    case Subscript(_, _) => BreakSubscript(e, k);
    case Call(_, _) => BreakCall(e, k);
    case PostStep(inc, x) => BreakBase(x, PostfixLevel, X(if inc then PlusPlus else MinusMinus, k));
    case BitCast(_, _) => BreakBitCast(e, k);
  }

  lemma {:induction false} BreakSubscript(e: Expr, k: Toks)
    requires Bad(e) && e.Subscript?
    ensures Postfix(BodyTokens(e, k)).Fail?
    decreases Depth(e), 0
  {
    var s := Tokens(e.i, CommaLevel, X(RBracket, k));
    if Printable(e.e) {
      ReadBase(e.e, PostfixLevel - 1, X(LBracket, s));
      BreakAssignment(e.i, X(RBracket, k));
      BrokenComma(s);
      assert PostLoop(Erase(e.e), X(LBracket, s)).Fail?;
    } else {
      BreakBase(e.e, PostfixLevel - 1, X(LBracket, s));
    }
  }

  lemma {:induction false} BreakCall(e: Expr, k: Toks)
    requires Bad(e) && e.Call?
    ensures Postfix(BodyTokens(e, k)).Fail?
    decreases Depth(e), 0
  {
    var s := ListTokens(e.es, X(RParen, k));
    if Printable(e.fun) {
      ReadBase(e.fun, PostfixLevel - 1, X(LParen, s));
      BreakList(e.es, RParen, false, k);
      assert PostLoop(Erase(e.fun), X(LParen, s)).Fail?;
    } else {
      BreakBase(e.fun, PostfixLevel - 1, X(LParen, s));
    }
  }

  lemma {:induction false} BreakBitCast(e: Expr, k: Toks)
    requires Bad(e) && e.BitCast?
    ensures Postfix(BodyTokens(e, k)).Fail?
    decreases Depth(e), 0
  {
    var s := Tokens(e.e, ParenthesesLevel, X(RParen, k));
    BreakLevel(e.e, 1, X(RParen, k));
    assert BitCastCall(T(TypeName(e.t), X(Sym.Comma, s))).Fail?;
    assert Primary(BodyTokens(e, k)).Fail?;
  }

  // ----- prefix expressions -----

  lemma {:induction false} BreakUnary(e: Expr, k: Toks)
    requires Bad(e) && !e.Implicit? && Prec(e) >= PrefixLevel
    ensures CastExpr(BodyTokens(e, k)).Fail? && Unary(BodyTokens(e, k)).Fail?
    decreases Depth(e), 2
  {
    if e.Cast? {
      BreakCast(e, k);
    } else if e.Prefix? {
      BreakPrefix(e, k);
    } else {
      if Prec(e) == PostfixLevel { BreakPostfix(e, k); } else { BreakPrimary(e, k); }
      HeadOfPostfix(e, k);
      PrimaryFails(BodyTokens(e, k));
    }
  }

  lemma {:induction false} BreakCast(e: Expr, k: Toks)
    requires Bad(e) && e.Cast?
    ensures CastExpr(BodyTokens(e, k)).Fail? && Unary(BodyTokens(e, k)).Fail?
    decreases Depth(e), 0
  {
    var s := Tokens(e.e, PrefixLevel - 1, k);
    BreakOperand(e.e, k);
    Head(e.e, PrefixLevel - 1, k);
    CastFails(e.t, s);
  }

  lemma CastFails(t: string, s: Toks)
    requires CastExpr(s).Fail? && HeadOk(s)
    ensures CastExpr(X(LParen, T(TypeName(t), X(RParen, s)))).Fail?
    ensures Unary(X(LParen, T(TypeName(t), X(RParen, s)))).Fail?
  {
    CastIsNotUnary(X(LParen, T(TypeName(t), X(RParen, s))));
  }

  lemma {:induction false} BreakPrefix(e: Expr, k: Toks)
    requires Bad(e) && e.Prefix?
    ensures CastExpr(BodyTokens(e, k)).Fail? && Unary(BodyTokens(e, k)).Fail?
    decreases Depth(e), 0
  {
    var s := Tokens(e.e, PrefixLevel - 1, k);
    if e.op == Increment || e.op == Decrement { BreakTarget(e.e, PrefixLevel - 1, k); } else { BreakOperand(e.e, k); }
    PrefixIsUnary(e.op);
    UnaryFails(PrefixSym(e.op), s);
  }

  lemma UnaryFails(op: Sym, s: Toks)
    requires if op == PlusPlus || op == MinusMinus then Unary(s).Fail?
             else UnaryOperator(Token.Sym(op)) && CastExpr(s).Fail?
    ensures Unary(X(op, s)).Fail? && CastExpr(X(op, s)).Fail?
  {}

  // ----- infix expressions -----

  lemma {:induction false} BreakInfix(e: Expr, k: Toks)
    requires Bad(e) && e.Infix? && e.o != Assign
    ensures if Prec(e) >= 3 then Binary(Prec(e), BodyTokens(e, k)).Fail? else Broken(Binary(1, BodyTokens(e, k)))
    decreases Depth(e), 1
  {
    var m, s := Prec(e), InfixSym(e.o);
    var t := Tokens(e.r, m, k);
    InfixLevels(e.o);
    if Printable(e.l) {
      ReadLevel(e.l, m, X(s, t));
      BreakRight(e.r, m, k);
      LoopBreaks(m, Erase(e.l), s, t);
    } else {
      BreakLevel(e.l, m, X(s, t));
    }
  }

  lemma LoopBreaks(m: nat, l: CExpr, s: Sym, t: Toks)
    requires IsLevel(m) && Level(Token.Sym(s)) == m
    requires if m >= 3 then Operand(m, t).Fail? else Broken(Operand(m, t))
    ensures if m >= 3 then Loop(m, l, X(s, t)).Fail? else Broken(Loop(m, l, X(s, t)))
  {
    var x := Operand(m, t);
    if x.Done? { assert Loop(m, Bin(s, l, x.e), x.rest) == Done(Bin(s, l, x.e), x.rest); }
  }

  lemma {:induction false} BreakRight(e: Expr, m: nat, k: Toks)
    requires Bad(e) && IsLevel(m)
    ensures if m >= 3 then Operand(m, Tokens(e, m, k)).Fail? else Broken(Operand(m, Tokens(e, m, k)))
    decreases Depth(e), 7
  {
    if m == 1 {
      BreakAssignment(e, k);
    } else if m == 12 {
      BreakOperand(e, k);
    } else {
      BreakLevel(e, m + 1, k);
    }
  }

  lemma {:induction false} BreakAssign(e: Expr, k: Toks)
    requires Bad(e) && IsInfix(e, Assign)
    ensures Broken(Assignment(BodyTokens(e, k)))
    decreases Depth(e), 1
  {
    var t := Tokens(e.r, CommaLevel, k);
    var s := Tokens(e.l, AssignmentLevel, X(Eq, t));
    assert BodyTokens(e, k) == s;
    if Printable(e.l) {
      ReadTarget(e.l, AssignmentLevel, X(Eq, t));
      BreakAssignment(e.r, k);
    } else {
      BreakTarget(e.l, AssignmentLevel, X(Eq, t));
      AllFail(3, s);
      OrFails(s);
    }
  }

  lemma {:induction false} BreakTernary(e: Expr, k: Toks)
    requires Bad(e) && e.Ternary?
    ensures Broken(Conditional(BodyTokens(e, k))) && Broken(Assignment(BodyTokens(e, k)))
    decreases Depth(e), 1
  {
    var b := Tokens(e.b, TernaryLevel - 1, k);
    var a := Tokens(e.a, TernaryLevel, X(Colon, b));
    var s := Tokens(e.c, TernaryLevel, X(Question, a));
    if !Printable(e.c) {
      BreakLevel(e.c, 3, X(Question, a));
      OrFails(s);
    } else {
      ReadFirst(e.c, a);
      if !Printable(e.a) {
        BreakLevel(e.a, 3, X(Colon, b));
        OrFails(a);
      } else {
        ReadSecond(e.a, b);
        BreakThird(e.b, k);
      }
      ChoiceBreaks(s, a);
    }
  }

  lemma ChoiceBreaks(s: Toks, a: Toks)
    requires Binary(3, s).Done? && Binary(3, s).rest == X(Question, a)
    requires Binary(1, a).Done? ==> Starts(Binary(1, a).rest, Colon) && Broken(Conditional(Binary(1, a).rest.tl))
    ensures Broken(Conditional(s)) && Broken(Assignment(s))
  {
    if Unary(s).Done? && Starts(Unary(s).rest, Eq) { UnaryBeforeEq(3, s); }
  }

  /** The third operand: a bad expression, or an assignment. */
  lemma {:induction false} BreakThird(e: Expr, k: Toks)
    requires Legible(e) && (!Printable(e) || IsInfix(Strip(e), Assign))
    ensures Broken(Conditional(Tokens(e, CommaLevel, k)))
    decreases Depth(e), 7
  {
    var x := Strip(e);
    StripFacts(e);
    ImplicitTokens(e, CommaLevel, k);
    if IsInfix(x, Assign) {
      StopsAtAssign(x, k);
    } else if x.Ternary? {
      BreakTernary(x, k);
    } else {
      BreakAt(x, CommaLevel, 3, k);
      OrFails(Tokens(x, CommaLevel, k));
    }
  }

  /** Read as third operand, an assignment ends before its equals sign. */
  lemma {:induction false} StopsAtAssign(e: Expr, k: Toks)
    requires Legible(e) && IsInfix(e, Assign)
    ensures Broken(Conditional(Tokens(e, CommaLevel, k)))
    decreases Depth(e), 6
  {
    var r := X(Eq, Tokens(e.r, CommaLevel, k));
    var s := Tokens(e.l, AssignmentLevel, r);
    assert Tokens(e, CommaLevel, k) == BodyTokens(e, k) == s;
    if Printable(e.l) {
      ReadTarget(e.l, AssignmentLevel, r);
      UnaryBeforeEq(3, s);
    } else {
      BreakTarget(e.l, AssignmentLevel, r);
      AllFail(3, s);
      OrFails(s);
    }
  }

  // ----- ambient precedence -----

  lemma {:induction false} BreakBody(e: Expr, m: nat, k: Toks)
    requires Bad(e) && !e.Implicit? && IsLevel(m) && m <= Prec(e)
    ensures if Prec(e) >= 3 then Binary(m, BodyTokens(e, k)).Fail? else Broken(Binary(1, BodyTokens(e, k)))
    decreases Depth(e), 3
  {
    var q, s := Prec(e), BodyTokens(e, k);
    if q >= PrefixLevel {
      BreakUnary(e, k);
      AllFail(m, s);
    } else if q == 2 {
      if e.Ternary? { BreakTernary(e, k); } else { BreakAssign(e, k); }
      BrokenComma(s);
    } else {
      BreakInfix(e, k);
      if q >= 3 { FailsBelow(m, q, s); }
    }
  }

  lemma {:induction false} BreakParen(e: Expr, k: Toks)
    requires Bad(e) && !e.Implicit?
    ensures var s := X(LParen, BodyTokens(e, X(RParen, k)));
            Primary(s).Fail? && Postfix(s).Fail? && CastExpr(s).Fail? && Unary(s).Fail?
    decreases Depth(e), 4
  {
    var s := X(LParen, BodyTokens(e, X(RParen, k)));
    BreakBody(e, 1, X(RParen, k));
    HeadBody(e, X(RParen, k));
    ParenFails(s.tl);
    assert Postfix(s).Fail?;
    PrimaryFails(s);
  }

  lemma {:induction false} BreakAt(e: Expr, cur: nat, m: nat, k: Toks)
    requires Bad(e) && !e.Implicit? && IsLevel(m) && (Prec(e) <= cur || m <= Prec(e))
    ensures if m >= 3 || Prec(e) <= cur then Binary(m, Tokens(e, cur, k)).Fail?
        else Broken(Binary(1, Tokens(e, cur, k)))
    decreases Depth(e), 5
  {
    if NeedsParentheses(e, cur) {
      BreakParen(e, k);
      AllFail(m, Tokens(e, cur, k));
    } else {
      BreakBody(e, m, k);
    }
  }

  lemma {:induction false} BreakLevel(e: Expr, m: nat, k: Toks)
    requires Bad(e) && IsLevel(m)
    ensures if m >= 3 then Binary(m, Tokens(e, m - 1, k)).Fail? else Broken(Binary(1, Tokens(e, 0, k)))
    decreases Depth(e), 6
  {
    StripFacts(e);
    ImplicitTokens(e, m - 1, k);
    BreakAt(Strip(e), m - 1, m, k);
  }

  lemma {:induction false} BreakAssignment(e: Expr, k: Toks)
    requires Bad(e)
    ensures Broken(Assignment(Tokens(e, CommaLevel, k)))
    decreases Depth(e), 6
  {
    var x := Strip(e);
    StripFacts(e);
    ImplicitTokens(e, CommaLevel, k);
    if Prec(x) == 2 {
      if x.Ternary? { BreakTernary(x, k); } else { BreakAssign(x, k); }
    } else {
      BreakAt(x, CommaLevel, 3, k);
      OrFails(Tokens(x, CommaLevel, k));
    }
  }

  lemma {:induction false} BreakOperand(e: Expr, k: Toks)
    requires Bad(e)
    ensures CastExpr(Tokens(e, PrefixLevel - 1, k)).Fail?
    decreases Depth(e), 6
  {
    var x := Strip(e);
    StripFacts(e);
    ImplicitTokens(e, PrefixLevel - 1, k);
    if NeedsParentheses(x, PrefixLevel - 1) { BreakParen(x, k); } else { BreakUnary(x, k); }
  }

  lemma {:induction false} BreakTarget(e: Expr, cur: nat, k: Toks)
    requires Bad(e) && Lvalue(e) && AssignmentLevel <= cur < PrefixLevel
    ensures CastExpr(Tokens(e, cur, k)).Fail? && Unary(Tokens(e, cur, k)).Fail?
    decreases Depth(e), 6
  {
    LvalueFacts(e);
    if NeedsParentheses(e, cur) { BreakParen(e, k); } else { BreakUnary(e, k); }
  }

  lemma {:induction false} BreakBase(e: Expr, cur: nat, k: Toks)
    requires Bad(e) && PrefixLevel <= cur
    ensures Postfix(Tokens(e, cur, k)).Fail?
    decreases Depth(e), 6
  {
    var x := Strip(e);
    StripFacts(e);
    ImplicitTokens(e, cur, k);
    if NeedsParentheses(x, cur) {
      BreakParen(x, k);
    } else if Prec(x) == PostfixLevel {
      BreakPostfix(x, k);
    } else {
      BreakPrimary(x, k);
    }
  }

  lemma {:induction false} BreakAtom(e: Expr, k: Toks)
    requires Bad(e)
    ensures Assignment(Tokens(e, PrimaryLevel, k)).Fail?
    decreases Depth(e), 7
  {
    var s := Tokens(e, PrimaryLevel, k);
    BreakBase(e, PrimaryLevel, k);
    HeadOfBase(e, PrimaryLevel, k);
    PrimaryFails(s);
    AllFail(3, s);
    OrFails(s);
  }

  /** The text as a whole is not an expression. */
  lemma BreakParse(e: Expr)
    requires Bad(e)
    ensures Parse(Tokens(e, ParenthesesLevel, End)) == None
  {
    BreakLevel(e, 1, End);
  }
}
