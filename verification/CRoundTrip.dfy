/** Parsing the printed text of an expression gives the expression back. */
module CRoundTrip {
  import opened Wrappers
  import opened CTokens
  import opened CParser
  import opened CPrinter
  import opened CPrintable
  import opened CLexing
  import opened CMacros

  // ----- where an expression ends -----

  predicate PostToken(t: Token) {
    t == Token.Sym(LBracket) || t == Token.Sym(LParen) || t == Token.Sym(Dot) || t == Token.Sym(Arrow)
    || t == Token.Sym(PlusPlus) || t == Token.Sym(MinusMinus)
  }

  /** No expression of level `m` goes on with `k`. */
  predicate Stop(m: nat, k: Toks) {
    k.T? ==> !PostToken(k.hd) && Level(k.hd) < m && (m <= 2 ==> !Starts(k, Question) && !Starts(k, Eq))
  }

  predicate IsLevel(m: nat) { m == 1 || 3 <= m <= 12 }

  lemma LoopStops(m: nat, e: CExpr, k: Toks)
    requires IsLevel(m) && Stop(m, k)
    ensures Loop(m, e, k) == Done(e, k)
  {}

  lemma PostStops(e: CExpr, k: Toks)
    requires Stop(13, k)
    ensures PostLoop(e, k) == Done(e, k)
  {}

  // ----- what is read at one level is read at the levels below -----

  lemma FromPrimary(s: Toks)
    requires Primary(s).Done?
    ensures CastExpr(s) == Unary(s) == Postfix(s) == PostLoop(Primary(s).e, Primary(s).rest)
  {}

  lemma {:induction false} FromCast(m: nat, s: Toks, e: CExpr, k: Toks)
    requires 3 <= m <= 12 && CastExpr(s) == Done(e, k) && Stop(m + 1, k)
    ensures Binary(m, s) == Loop(m, e, k)
    decreases 12 - m
  {
    if m < 12 {
      FromCast(m + 1, s, e, k);
      LoopStops(m + 1, e, k);
    }
  }

  lemma {:induction false} FromBinary(m: nat, q: nat, s: Toks, e: CExpr, k: Toks)
    requires 3 <= m < q <= 12 && Binary(q, s) == Done(e, k) && Stop(m + 1, k)
    ensures Binary(m, s) == Loop(m, e, k)
    decreases q - m
  {
    if m + 1 < q {
      FromBinary(m + 1, q, s, e, k);
      LoopStops(m + 1, e, k);
    }
  }

  lemma CastIsNotUnary(s: Toks)
    requires StartsCast(s)
    ensures Unary(s).Fail?
  {
    assert Primary(s).Fail?;
  }

  /** An equals sign after a unary expression ends every binary expression. */
  lemma UnaryBeforeEq(m: nat, s: Toks)
    requires 3 <= m <= 12 && Unary(s).Done? && Starts(Unary(s).rest, Eq)
    ensures Binary(m, s) == Unary(s)
  {
    var u := Unary(s);
    if StartsCast(s) { CastIsNotUnary(s); }
    FromCast(m, s, u.e, u.rest);
    LoopStops(m, u.e, u.rest);
  }

  lemma FromOr(s: Toks, e: CExpr, k: Toks)
    requires Binary(3, s) == Done(e, k) && Stop(2, k)
    ensures Conditional(s) == Done(e, k) && Assignment(s) == Done(e, k)
  {
    if Unary(s).Done? && Starts(Unary(s).rest, Eq) { UnaryBeforeEq(3, s); }
  }

  lemma FromConditional(s: Toks, e: CExpr, k: Toks)
    requires Conditional(s) == Done(e, k) && Binary(3, s).Done? && !Starts(Binary(3, s).rest, Eq)
    ensures Assignment(s) == Done(e, k)
  {
    if Unary(s).Done? && Starts(Unary(s).rest, Eq) { UnaryBeforeEq(3, s); }
  }

  /** From a cast expression to any level. */
  lemma Lower(m: nat, s: Toks, e: CExpr, k: Toks)
    requires IsLevel(m) && CastExpr(s) == Done(e, k) && Stop(m + 1, k)
    ensures Binary(m, s) == Loop(m, e, k)
  {
    if m >= 3 {
      FromCast(m, s, e, k);
    } else {
      FromCast(3, s, e, k);
      LoopStops(3, e, k);
      FromOr(s, e, k);
    }
  }

  lemma LowerBinary(m: nat, q: nat, s: Toks, e: CExpr, k: Toks)
    requires IsLevel(m) && 3 <= q <= 12 && m < q && Binary(q, s) == Done(e, k) && Stop(m + 1, k)
    ensures Binary(m, s) == Loop(m, e, k)
  {
    if m >= 3 {
      FromBinary(m, q, s, e, k);
    } else {
      if q > 3 {
        FromBinary(3, q, s, e, k);
        LoopStops(3, e, k);
      }
      FromOr(s, e, k);
    }
  }

  // ----- printed tokens -----

  lemma ImplicitTokens(e: Expr, cur: nat, k: Toks)
    ensures Tokens(e, cur, k) == Tokens(Strip(e), cur, k) && BodyTokens(e, k) == BodyTokens(Strip(e), k)
  {
    StripFacts(e);
    if e.Implicit? {
      StripFacts(e.e);
      assert BodyTokens(e, k) == Tokens(Strip(e.e), Prec(e) - 1, k);
      if NeedsParentheses(e, cur) {
        assert BodyTokens(e, X(RParen, k)) == Tokens(Strip(e.e), Prec(e) - 1, X(RParen, k));
      }
    }
  }

  /** No expression begins with a type name or a brace. */
  predicate HeadOk(s: Toks) {
    s.T? && !s.hd.TypeName? && s.hd != Token.Sym(RParen) && s.hd != Token.Sym(RBrace) && s.hd != Token.Sym(LBrace)
  }

  lemma {:induction false} Head(e: Expr, cur: nat, k: Toks)
    ensures HeadOk(Tokens(e, cur, k))
    decreases Depth(e), 1
  {
    HeadBody(e, if NeedsParentheses(e, cur) then X(RParen, k) else k);
  }

  lemma {:induction false} HeadBody(e: Expr, k: Toks)
    ensures HeadOk(BodyTokens(e, k))
    decreases Depth(e), 0
  {
    match e
    case Access(x, arrow, f) => Head(x, PostfixLevel - 1, X(if arrow then Arrow else Dot, T(Word(f), k)));
    case Subscript(x, i) => Head(x, PostfixLevel - 1, X(LBracket, Tokens(i, CommaLevel, X(RBracket, k))));
    case Call(f, es) => Head(f, PostfixLevel - 1, X(LParen, ListTokens(es, X(RParen, k))));
    case PostStep(inc, x) => Head(x, PostfixLevel, X(if inc then PlusPlus else MinusMinus, k));
    case Implicit(x) => Head(Strip(x), Prec(e) - 1, k);
    case Infix(o, l, r) => Head(l, LeftLevel(o), X(InfixSym(o), Tokens(r, RightLevel(o), k)));
    case Ternary(c, a, b) =>
      Head(c, TernaryLevel, X(Question, Tokens(a, TernaryLevel, X(Colon, Tokens(b, TernaryLevel - 1, k)))));
    case _ =>
  }

  // ----- one construct at a time -----

  lemma {:induction false} ReadPrimary(e: Expr, k: Toks)
    requires Printable(e) && !e.Implicit? && Prec(e) == PrimaryLevel
    ensures Primary(BodyTokens(e, k)) == Done(Erase(e), k)
    decreases Depth(e), 1
  {
    match e
    case Leaf(_) =>
    case Undef(t) =>
      ReadTypeOnly(t, k);
      MacroStep("undef", T(TypeName(t), X(RParen, k)), Args(TypeArg(t), NoArgs), k);
    case Aggregate(_, _) => ReadAggregate(e, k);
    case Intrinsic(w, es) =>
      ReadList(es, RParen, true, k);
      IntrinsicArguments(es, k);
      RuntimeMacroName(w);
      MacroStep(RuntimeMacro(w), ListTokens(es, X(RParen, k)), EraseAll(es), k);
    case IntrinsicCast(_, _, _) => ReadIntrinsicCast(e, k);
  }

  lemma {:induction false} ReadAggregate(e: Expr, k: Toks)
    requires Printable(e) && e.Aggregate?
    ensures Primary(BodyTokens(e, k)) == Done(Erase(e), k)
    decreases Depth(e), 0
  {
    ReadList(e.es, RBrace, false, k);
    Head(e.es.e, CommaLevel, MoreTokens(e.es.rest, X(RBrace, k)));
    BraceStep(e.t, ListTokens(e.es, X(RBrace, k)), EraseAll(e.es), k);
  }

  lemma BraceStep(t: string, s: Toks, args: CArgs, k: Toks)
    requires ArgList(RBrace, false, s) == DoneArgs(args, k) && HeadOk(s)
    ensures Primary(X(LParen, T(TypeName(t), X(RParen, X(LBrace, s))))) == Done(Compound(t, args), k)
  {}

  lemma {:induction false} ReadIntrinsicCast(e: Expr, k: Toks)
    requires Printable(e) && e.IntrinsicCast?
    ensures Primary(BodyTokens(e, k)) == Done(Erase(e), k)
    decreases Depth(e), 0
  {
    var s := Tokens(e.e, PrimaryLevel, X(RParen, k));
    ReadAtom(e.e, X(RParen, k));
    ReadTyped(e.t, s, Erase(e.e), k);
    CommasTokens(e.e, PrimaryLevel, X(RParen, k), 0);
    RuntimeMacroName(e.w);
    MacroStep(RuntimeMacro(e.w), T(TypeName(e.t), X(Sym.Comma, s)), Args(TypeArg(e.t), Args(Erase(e.e), NoArgs)), k);
  }

  lemma ReadTypeOnly(t: string, k: Toks)
    ensures ArgList(RParen, true, T(TypeName(t), X(RParen, k))) == DoneArgs(Args(TypeArg(t), NoArgs), k)
  {}

  /** A type and an expression as macro arguments. */
  lemma ReadTyped(t: string, s: Toks, e: CExpr, k: Toks)
    requires Assignment(s) == Done(e, X(RParen, k)) && HeadOk(s)
    ensures ArgList(RParen, true, T(TypeName(t), X(Sym.Comma, s))) == DoneArgs(Args(TypeArg(t), Args(e, NoArgs)), k)
  {
    assert ArgMore(RParen, true, s) == DoneArgs(Args(e, NoArgs), k);
  }

  lemma {:induction false} ReadList(es: Exprs, close: Sym, types: bool, k: Toks)
    requires AllPrintable(es) && (close == RParen || close == RBrace)
    ensures ArgList(close, types, ListTokens(es, X(close, k))) == DoneArgs(EraseAll(es), k)
    decreases DepthAll(es), 8
  {
    if es.Item? {
      Head(es.e, CommaLevel, MoreTokens(es.rest, X(close, k)));
      ReadMore(es, close, types, k);
    }
  }

  lemma {:induction false} ReadMore(es: Exprs, close: Sym, types: bool, k: Toks)
    requires AllPrintable(es) && (close == RParen || close == RBrace) && es.Item?
    ensures ArgMore(close, types, ListTokens(es, X(close, k))) == DoneArgs(EraseAll(es), k)
    decreases DepthAll(es), 7
  {
    var r := MoreTokens(es.rest, X(close, k));
    Head(es.e, CommaLevel, r);
    ReadAssignment(es.e, r);
    if es.rest.Item? {
      ReadMore(es.rest, close, types, k);
      assert r == X(Sym.Comma, ListTokens(es.rest, X(close, k)));
    }
  }

  lemma MacroStep(w: string, s: Toks, args: CArgs, k: Toks)
    requires ArgList(RParen, true, s) == DoneArgs(args, k) && w != "bit_cast" && Commas(s, 0) == Separators(args)
    ensures Primary(T(Macro(w), X(LParen, s))) == Done(MacroUse(w, args), k)
  {}

  lemma RuntimeMacroName(w: string)
    ensures RuntimeMacro(w) != "bit_cast"
  {
    assert RuntimeMacro(w)[0] == 'r';
  }

  lemma MemberStep(e: CExpr, arrow: bool, f: string, k: Toks)
    ensures PostLoop(e, X(if arrow then Arrow else Dot, T(Word(f), k))) == PostLoop(Member(e, arrow, f), k)
  {}

  lemma StepStep(e: CExpr, s: Sym, k: Toks)
    requires s == PlusPlus || s == MinusMinus
    ensures PostLoop(e, X(s, k)) == PostLoop(Post(s, e), k)
  {}

  lemma IndexStep(e: CExpr, s: Toks, i: CExpr, k: Toks)
    requires Binary(1, s) == Done(i, X(RBracket, k))
    ensures PostLoop(e, X(LBracket, s)) == PostLoop(Index(e, i), k)
  {}

  lemma CallStep(e: CExpr, s: Toks, args: CArgs, k: Toks)
    requires ArgList(RParen, false, s) == DoneArgs(args, k)
    ensures PostLoop(e, X(LParen, s)) == PostLoop(CallOf(e, args), k)
  {}

  lemma {:induction false} ReadPostfix(e: Expr, k: Toks)
    requires Printable(e) && !e.Implicit? && Prec(e) == PostfixLevel
    ensures Primary(BodyTokens(e, k)).Done? && Postfix(BodyTokens(e, k)) == PostLoop(Erase(e), k)
    decreases Depth(e), 1
  {
    match e
    case Access(_, _, _) => ReadAccess(e, k);
    case Subscript(_, _) => ReadSubscript(e, k);
    case Call(_, _) => ReadCall(e, k);
    case PostStep(_, _) => ReadPostStep(e, k);
    case BitCast(_, _) => ReadBitCast(e, k);
  }

  lemma {:induction false} ReadAccess(e: Expr, k: Toks)
    requires Printable(e) && e.Access?
    ensures Primary(BodyTokens(e, k)).Done? && Postfix(BodyTokens(e, k)) == PostLoop(Erase(e), k)
    decreases Depth(e), 0
  {
    ReadBase(e.e, PostfixLevel - 1, X(if e.arrow then Arrow else Dot, T(Word(e.f), k)));
    MemberStep(Erase(e.e), e.arrow, e.f, k);
  }

  lemma {:induction false} ReadPostStep(e: Expr, k: Toks)
    requires Printable(e) && e.PostStep?
    ensures Primary(BodyTokens(e, k)).Done? && Postfix(BodyTokens(e, k)) == PostLoop(Erase(e), k)
    decreases Depth(e), 0
  {
    ReadBase(e.e, PostfixLevel, X(if e.inc then PlusPlus else MinusMinus, k));
    StepStep(Erase(e.e), if e.inc then PlusPlus else MinusMinus, k);
  }

  lemma {:induction false} ReadSubscript(e: Expr, k: Toks)
    requires Printable(e) && e.Subscript?
    ensures Primary(BodyTokens(e, k)).Done? && Postfix(BodyTokens(e, k)) == PostLoop(Erase(e), k)
    decreases Depth(e), 0
  {
    var s := Tokens(e.i, CommaLevel, X(RBracket, k));
    ReadBase(e.e, PostfixLevel - 1, X(LBracket, s));
    ReadAssignment(e.i, X(RBracket, k));
    LoopStops(1, Erase(e.i), X(RBracket, k));
    IndexStep(Erase(e.e), s, Erase(e.i), k);
  }

  lemma {:induction false} ReadCall(e: Expr, k: Toks)
    requires Printable(e) && e.Call?
    ensures Primary(BodyTokens(e, k)).Done? && Postfix(BodyTokens(e, k)) == PostLoop(Erase(e), k)
    decreases Depth(e), 0
  {
    var s := ListTokens(e.es, X(RParen, k));
    ReadBase(e.fun, PostfixLevel - 1, X(LParen, s));
    ReadList(e.es, RParen, false, k);
    CallStep(Erase(e.fun), s, EraseAll(e.es), k);
  }

  lemma BitCastStep(t: string, s: Toks, e: CExpr, k: Toks)
    requires Binary(1, s) == Done(e, X(RParen, k))
    ensures Primary(T(Macro("bit_cast"), X(LParen, T(TypeName(t), X(Sym.Comma, s))))) == Done(BitCastOf(t, e), k)
  {
    assert BitCastCall(T(TypeName(t), X(Sym.Comma, s))) == Done(BitCastOf(t, e), k);
  }

  lemma {:induction false} ReadBitCast(e: Expr, k: Toks)
    requires Printable(e) && e.BitCast?
    ensures Primary(BodyTokens(e, k)) == Done(Erase(e), k)
    ensures Postfix(BodyTokens(e, k)) == PostLoop(Erase(e), k)
    decreases Depth(e), 0
  {
    var s := Tokens(e.e, ParenthesesLevel, X(RParen, k));
    ReadLevel(e.e, 1, X(RParen, k));
    LoopStops(1, Erase(e.e), X(RParen, k));
    BitCastStep(e.t, s, Erase(e.e), k);
  }

  lemma {:induction false} ReadPrefix(e: Expr, k: Toks)
    requires Printable(e) && !e.Implicit? && Prec(e) == PrefixLevel && Stop(13, k)
    ensures CastExpr(BodyTokens(e, k)) == Done(Erase(e), k)
    ensures !e.Cast? ==> Unary(BodyTokens(e, k)) == Done(Erase(e), k)
    decreases Depth(e), 1
  {
    if e.Cast? { ReadCast(e, k); } else { ReadPrefixOp(e, k); }
  }

  lemma {:induction false} ReadCast(e: Expr, k: Toks)
    requires Printable(e) && e.Cast? && Stop(13, k)
    ensures CastExpr(BodyTokens(e, k)) == Done(Erase(e), k)
    decreases Depth(e), 0
  {
    ReadOperand(e.e, k);
    Head(e.e, PrefixLevel - 1, k);
    CastStep(e.t, Tokens(e.e, PrefixLevel - 1, k), Erase(e.e), k);
  }

  lemma {:induction false} ReadPrefixOp(e: Expr, k: Toks)
    requires Printable(e) && e.Prefix? && Stop(13, k)
    ensures CastExpr(BodyTokens(e, k)) == Unary(BodyTokens(e, k)) == Done(Erase(e), k)
    decreases Depth(e), 0
  {
    var s := Tokens(e.e, PrefixLevel - 1, k);
    if e.op == Increment || e.op == Decrement { ReadTarget(e.e, PrefixLevel - 1, k); } else { ReadOperand(e.e, k); }
    PrefixIsUnary(e.op);
    assert BodyTokens(e, k) == X(PrefixSym(e.op), s) && Erase(e) == Pre(PrefixSym(e.op), Erase(e.e));
    UnaryStep(PrefixSym(e.op), s, Erase(e.e), k);
  }

  lemma PrefixIsUnary(op: PrefixOp)
    ensures op == Increment || op == Decrement <==> PrefixSym(op) == PlusPlus || PrefixSym(op) == MinusMinus
    ensures op != Increment && op != Decrement ==> UnaryOperator(Token.Sym(PrefixSym(op)))
  {}

  lemma CastStep(t: string, s: Toks, e: CExpr, k: Toks)
    requires CastExpr(s) == Done(e, k) && HeadOk(s)
    ensures CastExpr(X(LParen, T(TypeName(t), X(RParen, s)))) == Done(CastTo(t, e), k)
  {}

  lemma UnaryStep(op: Sym, s: Toks, e: CExpr, k: Toks)
    requires if op == PlusPlus || op == MinusMinus then Unary(s) == Done(e, k)
        else UnaryOperator(Token.Sym(op)) && CastExpr(s) == Done(e, k)
    ensures Unary(X(op, s)) == Done(Pre(op, e), k) && CastExpr(X(op, s)) == Done(Pre(op, e), k)
  {}

  lemma {:induction false} ReadInfix(e: Expr, k: Toks)
    requires Printable(e) && e.Infix? && e.o != Assign && Stop(Prec(e) + 1, k)
    ensures Binary(Prec(e), BodyTokens(e, k)) == Loop(Prec(e), Erase(e), k)
    decreases Depth(e), 1
  {
    var m, s := Prec(e), InfixSym(e.o);
    InfixLevels(e.o);
    ReadLevel(e.l, m, X(s, Tokens(e.r, m, k)));
    ReadRight(e.r, m, k);
    LoopStep(m, Erase(e.l), s, Tokens(e.r, m, k), Erase(e.r), k);
  }

  /** The precedences of the printer are the levels of the grammar. */
  lemma InfixLevels(o: InfixOp)
    requires o != Assign
    ensures IsLevel(InfixLevel(o)) && Level(Token.Sym(InfixSym(o))) == InfixLevel(o)
    ensures !PostToken(Token.Sym(InfixSym(o))) && InfixSym(o) != Question && InfixSym(o) != Eq
  {}

  lemma LoopStep(m: nat, l: CExpr, s: Sym, t: Toks, r: CExpr, k: Toks)
    requires IsLevel(m) && Level(Token.Sym(s)) == m && Operand(m, t) == Done(r, k)
    ensures Loop(m, l, X(s, t)) == Loop(m, Bin(s, l, r), k)
  {}

  lemma {:induction false} ReadRight(e: Expr, m: nat, k: Toks)
    requires Printable(e) && IsLevel(m) && Stop(m + 1, k)
    ensures Operand(m, Tokens(e, m, k)) == Done(Erase(e), k)
    decreases Depth(e), 7
  {
    if m == 1 {
      ReadAssignment(e, k);
    } else if m == 12 {
      ReadOperand(e, k);
    } else {
      ReadLevel(e, m + 1, k);
      LoopStops(m + 1, Erase(e), k);
    }
  }

  lemma {:induction false} ReadAssign(e: Expr, k: Toks)
    requires Printable(e) && IsInfix(e, Assign) && Stop(2, k)
    ensures Assignment(BodyTokens(e, k)) == Done(Erase(e), k)
    decreases Depth(e), 1
  {
    var r := X(Eq, Tokens(e.r, CommaLevel, k));
    assert BodyTokens(e, k) == Tokens(e.l, AssignmentLevel, r) && Erase(e) == Bin(Eq, Erase(e.l), Erase(e.r));
    ReadTarget(e.l, AssignmentLevel, r);
    ReadAssignment(e.r, k);
    AssignStep(Tokens(e.l, AssignmentLevel, r), Erase(e.l), Tokens(e.r, CommaLevel, k), Erase(e.r), k);
  }

  lemma AssignStep(s: Toks, l: CExpr, t: Toks, r: CExpr, k: Toks)
    requires Unary(s) == Done(l, X(Eq, t)) && Assignment(t) == Done(r, k)
    ensures Assignment(s) == Done(Bin(Eq, l, r), k)
  {}

  lemma ChoiceStep(s: Toks, c: CExpr, sa: Toks, a: CExpr, sb: Toks, b: CExpr, k: Toks)
    requires Binary(3, s) == Done(c, X(Question, sa)) && Binary(1, sa) == Done(a, X(Colon, sb))
    requires Conditional(sb) == Done(b, k)
    ensures Conditional(s) == Done(Choice(c, a, b), k) && Assignment(s) == Done(Choice(c, a, b), k)
  {
    FromConditional(s, Choice(c, a, b), k);
  }

  lemma {:induction false} ReadTernary(e: Expr, k: Toks)
    requires Printable(e) && e.Ternary? && Stop(2, k)
    ensures Conditional(BodyTokens(e, k)) == Done(Erase(e), k) && Assignment(BodyTokens(e, k)) == Done(Erase(e), k)
    decreases Depth(e), 1
  {
    var b := Tokens(e.b, TernaryLevel - 1, k);
    var a := Tokens(e.a, TernaryLevel, X(Colon, b));
    var s := Tokens(e.c, TernaryLevel, X(Question, a));
    ReadFirst(e.c, a);
    ReadSecond(e.a, b);
    ReadThird(e.b, k);
    ChoiceStep(s, Erase(e.c), a, Erase(e.a), b, Erase(e.b), k);
  }

  lemma {:induction false} ReadFirst(e: Expr, s: Toks)
    requires Printable(e)
    ensures Binary(3, Tokens(e, TernaryLevel, X(Question, s))) == Done(Erase(e), X(Question, s))
    decreases Depth(e), 7
  {
    ReadLevel(e, 3, X(Question, s));
    LoopStops(3, Erase(e), X(Question, s));
  }

  lemma {:induction false} ReadSecond(e: Expr, s: Toks)
    requires Printable(e)
    ensures Binary(1, Tokens(e, TernaryLevel, X(Colon, s))) == Done(Erase(e), X(Colon, s))
    decreases Depth(e), 7
  {
    var k := X(Colon, s);
    ReadLevel(e, 3, k);
    LoopStops(3, Erase(e), k);
    LowerBinary(1, 3, Tokens(e, TernaryLevel, k), Erase(e), k);
    LoopStops(1, Erase(e), k);
  }

  lemma {:induction false} ReadThird(e: Expr, k: Toks)
    requires Printable(e) && !IsInfix(Strip(e), Assign) && Stop(2, k)
    ensures Conditional(Tokens(e, CommaLevel, k)) == Done(Erase(e), k)
    decreases Depth(e), 7
  {
    var x := Strip(e);
    StripFacts(e);
    EraseStrip(e);
    ImplicitTokens(e, CommaLevel, k);
    if x.Ternary? {
      ReadTernary(x, k);
    } else {
      ReadAt(x, CommaLevel, 3, k);
      LoopStops(3, Erase(x), k);
      FromOr(Tokens(x, CommaLevel, k), Erase(x), k);
    }
  }

  // ----- ambient precedence -----

  /** An expression without parentheses, read at a level it reaches. */
  lemma {:induction false} ReadBody(e: Expr, m: nat, k: Toks)
    requires Printable(e) && !e.Implicit? && IsLevel(m) && m <= Prec(e) && Stop(m + 1, k)
    ensures Binary(m, BodyTokens(e, k)) == Loop(m, Erase(e), k)
    decreases Depth(e), 3
  {
    var q, s := Prec(e), BodyTokens(e, k);
    if q >= PrefixLevel {
      ReadUnary(e, k);
      Lower(m, s, Erase(e), k);
    } else if q == 2 {
      if e.Ternary? { ReadTernary(e, k); } else { ReadAssign(e, k); }
    } else {
      ReadInfix(e, k);
      if m < q {
        LoopStops(q, Erase(e), k);
        LowerBinary(m, q, s, Erase(e), k);
      }
    }
  }

  lemma {:induction false} ReadUnary(e: Expr, k: Toks)
    requires Printable(e) && !e.Implicit? && Prec(e) >= PrefixLevel && Stop(13, k)
    ensures CastExpr(BodyTokens(e, k)) == Done(Erase(e), k)
    ensures !e.Cast? ==> Unary(BodyTokens(e, k)) == Done(Erase(e), k)
    decreases Depth(e), 2
  {
    if Prec(e) == PrefixLevel {
      ReadPrefix(e, k);
    } else {
      if Prec(e) == PostfixLevel { ReadPostfix(e, k); } else { ReadPrimary(e, k); }
      FromPrimary(BodyTokens(e, k));
      PostStops(Erase(e), k);
    }
  }

  lemma {:induction false} ReadParen(e: Expr, k: Toks)
    requires Printable(e) && !e.Implicit?
    ensures Primary(X(LParen, BodyTokens(e, X(RParen, k)))) == Done(Erase(e), k)
    decreases Depth(e), 4
  {
    ReadBody(e, 1, X(RParen, k));
    LoopStops(1, Erase(e), X(RParen, k));
    HeadBody(e, X(RParen, k));
  }

  lemma {:induction false} ReadAt(e: Expr, cur: nat, m: nat, k: Toks)
    requires Printable(e) && !e.Implicit? && IsLevel(m) && (Prec(e) <= cur || m <= Prec(e)) && Stop(m + 1, k)
    ensures Binary(m, Tokens(e, cur, k)) == Loop(m, Erase(e), k)
    decreases Depth(e), 5
  {
    if NeedsParentheses(e, cur) {
      ReadParen(e, k);
      FromPrimary(Tokens(e, cur, k));
      PostStops(Erase(e), k);
      Lower(m, Tokens(e, cur, k), Erase(e), k);
    } else {
      ReadBody(e, m, k);
    }
  }

  lemma {:induction false} ReadLevel(e: Expr, m: nat, k: Toks)
    requires Printable(e) && IsLevel(m) && Stop(m + 1, k)
    ensures Binary(m, Tokens(e, m - 1, k)) == Loop(m, Erase(e), k)
    decreases Depth(e), 6
  {
    StripFacts(e);
    EraseStrip(e);
    ImplicitTokens(e, m - 1, k);
    ReadAt(Strip(e), m - 1, m, k);
  }

  lemma {:induction false} ReadAssignment(e: Expr, k: Toks)
    requires Printable(e) && Stop(2, k)
    ensures Assignment(Tokens(e, CommaLevel, k)) == Done(Erase(e), k)
    decreases Depth(e), 6
  {
    var x := Strip(e);
    StripFacts(e);
    EraseStrip(e);
    ImplicitTokens(e, CommaLevel, k);
    if Prec(x) == 2 {
      if x.Ternary? { ReadTernary(x, k); } else { ReadAssign(x, k); }
    } else {
      ReadAt(x, CommaLevel, 3, k);
      LoopStops(3, Erase(x), k);
      FromOr(Tokens(x, CommaLevel, k), Erase(x), k);
    }
  }

  lemma {:induction false} ReadOperand(e: Expr, k: Toks)
    requires Printable(e) && Stop(13, k)
    ensures CastExpr(Tokens(e, PrefixLevel - 1, k)) == Done(Erase(e), k)
    decreases Depth(e), 6
  {
    var x := Strip(e);
    StripFacts(e);
    EraseStrip(e);
    ImplicitTokens(e, PrefixLevel - 1, k);
    if NeedsParentheses(x, PrefixLevel - 1) {
      ReadParen(x, k);
      FromPrimary(Tokens(x, PrefixLevel - 1, k));
      PostStops(Erase(x), k);
    } else {
      ReadUnary(x, k);
    }
  }

  /** The operand of an assignment or a step. */
  lemma {:induction false} ReadTarget(e: Expr, cur: nat, k: Toks)
    requires Printable(e) && Lvalue(e) && AssignmentLevel <= cur < PrefixLevel && Stop(13, k)
    ensures Unary(Tokens(e, cur, k)) == Done(Erase(e), k)
    decreases Depth(e), 6
  {
    LvalueFacts(e);
    if NeedsParentheses(e, cur) {
      ReadParen(e, k);
      FromPrimary(Tokens(e, cur, k));
      PostStops(Erase(e), k);
    } else {
      ReadUnary(e, k);
    }
  }

  lemma {:induction false} ReadBase(e: Expr, cur: nat, k: Toks)
    requires Printable(e) && PrefixLevel <= cur
    ensures Primary(Tokens(e, cur, k)).Done? && Postfix(Tokens(e, cur, k)) == PostLoop(Erase(e), k)
    ensures cur >= PostfixLevel ==> Primary(Tokens(e, cur, k)) == Done(Erase(e), k)
    decreases Depth(e), 6
  {
    var x := Strip(e);
    StripFacts(e);
    EraseStrip(e);
    ImplicitTokens(e, cur, k);
    if NeedsParentheses(x, cur) {
      ReadParen(x, k);
    } else if Prec(x) == PostfixLevel {
      ReadPostfix(x, k);
    } else {
      ReadPrimary(x, k);
    }
  }

  lemma {:induction false} ReadAtom(e: Expr, k: Toks)
    requires Printable(e) && Stop(2, k)
    ensures Assignment(Tokens(e, PrimaryLevel, k)) == Done(Erase(e), k) && HeadOk(Tokens(e, PrimaryLevel, k))
    decreases Depth(e), 7
  {
    var s := Tokens(e, PrimaryLevel, k);
    ReadBase(e, PrimaryLevel, k);
    FromPrimary(s);
    PostStops(Erase(e), k);
    FromCast(3, s, Erase(e), k);
    LoopStops(3, Erase(e), k);
    FromOr(s, Erase(e), k);
    Head(e, PrimaryLevel, k);
  }

  // ----- the theorem -----

  /** What the emitter writes for an expression is read back as that expression. */
  lemma RoundTrip(e: Expr)
    requires Printable(e)
    ensures Parse(Lex(Glyphs(Text(e, ParenthesesLevel)))) == Some(Erase(e))
  {
    var g := Text(e, ParenthesesLevel);
    assert g + [] == g;
    Weaken(Printability, Legibility, e);
    LexText(e, ParenthesesLevel, []);
    assert L([]) == End;
    ReadLevel(e, 1, End);
    LoopStops(1, Erase(e), End);
  }
}
