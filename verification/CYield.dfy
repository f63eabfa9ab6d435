/** What a syntax tree says about the tokens it was read from: all of them but the parentheses. */
module CYield {
  import opened CTokens
  import opened CParser
  import opened CPrinter
  import opened CPrintable

  /** The tokens without parentheses. */
  function Tight(s: Toks): Toks {
    if s.End? then End
    else if s.hd == Token.Sym(LParen) || s.hd == Token.Sym(RParen) then Tight(s.tl)
    else T(s.hd, Tight(s.tl))
  }

  /** The tokens of a tree, without parentheses, followed by `k`. */
  function Yield(e: CExpr, k: Toks): Toks {
    match e
    case Name(w) => T(Word(w), k)
    case MacroUse(w, args) => T(Macro(w), YieldArgs(args, k))
    case TypeArg(t) => T(TypeName(t), k)
    case Compound(t, inits) => T(TypeName(t), X(LBrace, YieldArgs(inits, X(RBrace, k))))
    case Member(x, arrow, f) => Yield(x, X(if arrow then Arrow else Dot, T(Word(f), k)))
    case Index(x, i) => Yield(x, X(LBracket, Yield(i, X(RBracket, k))))
    case CallOf(f, args) => Yield(f, YieldArgs(args, k))
    case Post(op, x) => Yield(x, X(op, k))
    case Pre(op, x) => X(op, Yield(x, k))
    case CastTo(t, x) => T(TypeName(t), Yield(x, k))
    case Bin(op, l, r) => Yield(l, X(op, Yield(r, k)))
    case Choice(c, a, b) => Yield(c, X(Question, Yield(a, X(Colon, Yield(b, k)))))
  }

  function YieldArgs(args: CArgs, k: Toks): Toks {
    match args
    case NoArgs => k
    case Args(e, NoArgs) => Yield(e, k)
    case Args(e, rest) => Yield(e, X(Sym.Comma, YieldArgs(rest, k)))
  }

  /** The tree `r.e` was read from `s` and left `r.rest`. */
  ghost predicate Accounts(s: Toks, r: Out) { r.Done? ==> Tight(s) == Yield(r.e, Tight(r.rest)) }

  ghost predicate Continues(e: CExpr, s: Toks, r: Out) {
    r.Done? ==> Yield(e, Tight(s)) == Yield(r.e, Tight(r.rest))
  }

  // ----- the parser loses no token -----

  lemma {:induction false} BinaryYield(m: nat, s: Toks)
    requires m == 1 || 3 <= m <= 12
    ensures Accounts(s, Binary(m, s))
    decreases Size(s), 20 - m, 1
  {
    OperandYield(m, s);
    var x := Operand(m, s);
    if x.Done? { LoopYield(m, x.e, x.rest); }
  }

  lemma {:induction false} OperandYield(m: nat, s: Toks)
    requires m == 1 || 3 <= m <= 12
    ensures Accounts(s, Operand(m, s))
    decreases Size(s), 20 - m, 0
  {
    if m == 1 { AssignmentYield(s); } else if m == 12 { CastYield(s); } else { BinaryYield(m + 1, s); }
  }

  lemma {:induction false} LoopYield(m: nat, e: CExpr, s: Toks)
    requires m == 1 || 3 <= m <= 12
    ensures Continues(e, s, Loop(m, e, s))
    decreases Size(s), 20 - m, 0
  {
    if s.T? && Level(s.hd) == m {
      OperandYield(m, s.tl);
      var x := Operand(m, s.tl);
      if x.Done? { LoopYield(m, Bin(s.hd.s, e, x.e), x.rest); }
    }
  }

  lemma {:induction false} AssignmentYield(s: Toks)
    ensures Accounts(s, Assignment(s))
    decreases Size(s), 18, 2
  {
    UnaryYield(s);
    var u := Unary(s);
    if u.Done? && Starts(u.rest, Eq) { AssignmentYield(u.rest.tl); } else { ConditionalYield(s); }
  }

  lemma {:induction false} ConditionalYield(s: Toks)
    ensures Accounts(s, Conditional(s))
    decreases Size(s), 18, 1
  {
    BinaryYield(3, s);
    var c := Binary(3, s);
    if c.Done? && Starts(c.rest, Question) {
      BinaryYield(1, c.rest.tl);
      var a := Binary(1, c.rest.tl);
      if a.Done? && Starts(a.rest, Colon) { ConditionalYield(a.rest.tl); }
    }
  }

  lemma {:induction false} CastYield(s: Toks)
    ensures Accounts(s, CastExpr(s))
    decreases Size(s), 7, 0
  {
    if StartsCast(s) {
      assert Size(s.tl) > Size(s.tl.tl) > Size(s.tl.tl.tl);
      assert Tight(s) == Tight(s.tl) == T(s.tl.hd, Tight(s.tl.tl)) && Tight(s.tl.tl) == Tight(s.tl.tl.tl);
      CastYield(s.tl.tl.tl);
    } else {
      UnaryYield(s);
    }
  }

  lemma {:induction false} UnaryYield(s: Toks)
    ensures Accounts(s, Unary(s))
    decreases Size(s), 6, 0
  {
    if Starts(s, PlusPlus) || Starts(s, MinusMinus) {
      UnaryYield(s.tl);
    } else if s.T? && UnaryOperator(s.hd) {
      CastYield(s.tl);
    } else {
      PostfixYield(s);
    }
  }

  lemma {:induction false} PostfixYield(s: Toks)
    ensures Accounts(s, Postfix(s))
    decreases Size(s), 5, 0
  {
    PrimaryYield(s);
    var x := Primary(s);
    if x.Done? { PostYield(x.e, x.rest); }
  }

  lemma {:induction false} PostYield(e: CExpr, s: Toks)
    ensures Continues(e, s, PostLoop(e, s))
    decreases Size(s), 0, 1
  {
    if Starts(s, LBracket) {
      IndexYield(e, s);
    } else if Starts(s, LParen) {
      CallYield(e, s);
    } else if Starts(s, Dot) || Starts(s, Arrow) {
      MemberYield(e, s);
    } else if Starts(s, PlusPlus) || Starts(s, MinusMinus) {
      PostYield(Post(s.hd.s, e), s.tl);
    }
  }

  lemma {:induction false} IndexYield(e: CExpr, s: Toks)
    requires Starts(s, LBracket)
    ensures Continues(e, s, PostLoop(e, s))
    decreases Size(s), 0, 0
  {
    BinaryYield(1, s.tl);
    var i := Binary(1, s.tl);
    if i.Done? && Starts(i.rest, RBracket) { PostYield(Index(e, i.e), i.rest.tl); }
  }

  lemma {:induction false} CallYield(e: CExpr, s: Toks)
    requires Starts(s, LParen)
    ensures Continues(e, s, PostLoop(e, s))
    decreases Size(s), 0, 0
  {
    ArgListYield(RParen, false, s.tl);
    var a := ArgList(RParen, false, s.tl);
    if a.DoneArgs? { PostYield(CallOf(e, a.args), a.rest); }
  }

  lemma {:induction false} MemberYield(e: CExpr, s: Toks)
    requires Starts(s, Dot) || Starts(s, Arrow)
    ensures Continues(e, s, PostLoop(e, s))
    decreases Size(s), 0, 0
  {
    if s.tl.T? && s.tl.hd.Word? {
      assert Size(s) > Size(s.tl) > Size(s.tl.tl);
      PostYield(Member(e, s.hd == Token.Sym(Arrow), s.tl.hd.w), s.tl.tl);
    }
  }

  lemma {:induction false} PrimaryYield(s: Toks)
    ensures Accounts(s, Primary(s))
    decreases Size(s), 4, 0
  {
    if s.T? && s.hd.Macro? && Starts(s.tl, LParen) {
      MacroYield(s);
    } else if Starts(s, LParen) {
      if s.tl.T? && s.tl.hd.TypeName? { CompoundYield(s); } else { BinaryYield(1, s.tl); }
    }
  }

  lemma {:induction false} MacroYield(s: Toks)
    requires s.T? && s.hd.Macro? && Starts(s.tl, LParen)
    ensures Accounts(s, Primary(s))
    decreases Size(s), 3, 0
  {
    var r := s.tl.tl;
    assert Size(s) > Size(s.tl) > Size(r) && Tight(s) == T(s.hd, Tight(r));
    if s.hd.w == "bit_cast" {
      if r.T? && r.hd.TypeName? && Starts(r.tl, Sym.Comma) {
        assert Size(r) > Size(r.tl) > Size(r.tl.tl) && Tight(r) == T(r.hd, X(Sym.Comma, Tight(r.tl.tl)));
        BinaryYield(1, r.tl.tl);
        var e := Binary(1, r.tl.tl);
        if e.Done? { TypedYield("bit_cast", r.hd.t, e.e, Tight(e.rest)); }
      }
    } else {
      ArgListYield(RParen, true, r);
    }
  }

  lemma TypedYield(w: string, t: string, e: CExpr, k: Toks)
    ensures Yield(MacroUse(w, Args(TypeArg(t), Args(e, NoArgs))), k)
            == T(Macro(w), T(TypeName(t), X(Sym.Comma, Yield(e, k))))
  {
    var args := Args(e, NoArgs);
    assert YieldArgs(args, k) == Yield(e, k);
    assert YieldArgs(Args(TypeArg(t), args), k) == Yield(TypeArg(t), X(Sym.Comma, YieldArgs(args, k)));
  }

  lemma TypedTight(w: string, t: string, s: Toks)
    ensures Tight(T(Macro(w), X(LParen, T(TypeName(t), X(Sym.Comma, s)))))
            == T(Macro(w), T(TypeName(t), X(Sym.Comma, Tight(s))))
  {
    assert Tight(X(Sym.Comma, s)) == X(Sym.Comma, Tight(s));
    assert Tight(T(TypeName(t), X(Sym.Comma, s))) == T(TypeName(t), X(Sym.Comma, Tight(s)));
  }

  lemma {:induction false} CompoundYield(s: Toks)
    requires Starts(s, LParen) && s.tl.T? && s.tl.hd.TypeName?
    ensures Accounts(s, Primary(s))
    decreases Size(s), 3, 0
  {
    if Starts(s.tl.tl, RParen) && Starts(s.tl.tl.tl, LBrace) && !Starts(s.tl.tl.tl.tl, RBrace) {
      var r := s.tl.tl.tl.tl;
      assert Size(s.tl) > Size(s.tl.tl) > Size(s.tl.tl.tl) > Size(r);
      assert Tight(s) == Tight(s.tl) == T(s.tl.hd, Tight(s.tl.tl))
          && Tight(s.tl.tl) == Tight(s.tl.tl.tl) == X(LBrace, Tight(r));
      ArgListYield(RBrace, false, r);
    }
  }

  /** A closing brace is part of the text, a closing parenthesis is not. */
  function Closed(close: Sym, k: Toks): Toks { if close == RParen then k else X(close, k) }

  ghost predicate AccountsList(close: Sym, s: Toks, r: OutArgs) {
    r.DoneArgs? ==> Tight(s) == YieldArgs(r.args, Closed(close, Tight(r.rest)))
  }

  lemma {:induction false} ArgListYield(close: Sym, types: bool, s: Toks)
    requires close == RParen || close == RBrace
    ensures AccountsList(close, s, ArgList(close, types, s))
    decreases Size(s), 19, 1
  {
    if !Starts(s, close) { ArgMoreYield(close, types, s); }
  }

  lemma {:induction false} ArgMoreYield(close: Sym, types: bool, s: Toks)
    requires close == RParen || close == RBrace
    ensures AccountsList(close, s, ArgMore(close, types, s))
    ensures ArgMore(close, types, s).DoneArgs? ==> ArgMore(close, types, s).args.Args?
    decreases Size(s), 19, 0
  {
    var x := if types && s.T? && s.hd.TypeName? then Done(TypeArg(s.hd.t), s.tl) else Assignment(s);
    if !(types && s.T? && s.hd.TypeName?) { AssignmentYield(s); }
    if x.Done? && Starts(x.rest, Sym.Comma) && !Starts(x.rest, close) { ArgMoreYield(close, types, x.rest.tl); }
  }

  /** Reading a whole text accounts for all its tokens. */
  lemma ParseYield(s: Toks)
    ensures Parse(s).Some? ==> Tight(s) == Yield(Parse(s).value, End)
  {
    BinaryYield(1, s);
  }

  // ----- the printer loses no token -----

  lemma {:induction false} TokensYield(e: Expr, cur: nat, k: Toks)
    ensures Tight(Tokens(e, cur, k)) == Yield(Erase(e), Tight(k))
    decreases Depth(e), 2
  {
    BodyYield(e, if NeedsParentheses(e, cur) then X(RParen, k) else k);
  }

  lemma {:induction false} BodyYield(e: Expr, k: Toks)
    ensures Tight(BodyTokens(e, k)) == Yield(Erase(e), Tight(k))
    decreases Depth(e), 1
  {
    match e
    case Leaf(_) =>
    case Undef(t) => UndefYield(t, k);
    case Aggregate(_, _) => ListsYield(e, k);
    case Intrinsic(_, _) => ListsYield(e, k);
    case Call(_, _) => ListsYield(e, k);
    case IntrinsicCast(_, _, _) => CastsYield(e, k);
    case BitCast(_, _) => CastsYield(e, k);
    case Cast(_, _) => CastsYield(e, k);
    case Access(_, _, _) => AccessYield(e, k);
    case Subscript(_, _) => AccessYield(e, k);
    case PostStep(_, _) => AccessYield(e, k);
    case Implicit(x) =>
      EraseStrip(x);
      TokensYield(Strip(x), Prec(e) - 1, k);
    case Prefix(op, x) =>
      assert PrefixSym(op) != LParen && PrefixSym(op) != RParen;
      TokensYield(x, PrefixLevel - 1, k);
    case Infix(_, _, _) => InfixYield(e, k);
    case Ternary(_, _, _) => TernaryYield(e, k);
  }

  lemma {:induction false} ListsYield(e: Expr, k: Toks)
    requires e.Aggregate? || e.Intrinsic? || e.Call?
    ensures Tight(BodyTokens(e, k)) == Yield(Erase(e), Tight(k))
    decreases Depth(e), 0
  {
    match e
    case Aggregate(t, es) =>
      ListYield(es, X(RBrace, k));
      BracesTight(t, ListTokens(es, X(RBrace, k)));
    case Intrinsic(w, es) =>
      ListYield(es, X(RParen, k));
      CallTight(Macro(RuntimeMacro(w)), ListTokens(es, X(RParen, k)));
    case Call(f, es) =>
      TokensYield(f, PostfixLevel - 1, X(LParen, ListTokens(es, X(RParen, k))));
      ListYield(es, X(RParen, k));
  }

  lemma {:induction false} CastsYield(e: Expr, k: Toks)
    requires e.IntrinsicCast? || e.BitCast? || e.Cast?
    ensures Tight(BodyTokens(e, k)) == Yield(Erase(e), Tight(k))
    decreases Depth(e), 0
  {
    match e
    case IntrinsicCast(w, t, x) =>
      TokensYield(x, PrimaryLevel, X(RParen, k));
      TypedTight(RuntimeMacro(w), t, Tokens(x, PrimaryLevel, X(RParen, k)));
      TypedYield(RuntimeMacro(w), t, Erase(x), Tight(k));
    case BitCast(t, x) =>
      TokensYield(x, ParenthesesLevel, X(RParen, k));
      TypedTight("bit_cast", t, Tokens(x, ParenthesesLevel, X(RParen, k)));
      TypedYield("bit_cast", t, Erase(x), Tight(k));
    case Cast(t, x) =>
      TokensYield(x, PrefixLevel - 1, k);
      CastTight(t, Tokens(x, PrefixLevel - 1, k));
  }

  lemma {:induction false} AccessYield(e: Expr, k: Toks)
    requires e.Access? || e.Subscript? || e.PostStep?
    ensures Tight(BodyTokens(e, k)) == Yield(Erase(e), Tight(k))
    decreases Depth(e), 0
  {
    match e
    case Access(x, arrow, f) => TokensYield(x, PostfixLevel - 1, X(if arrow then Arrow else Dot, T(Word(f), k)));
    case Subscript(x, i) =>
      TokensYield(x, PostfixLevel - 1, X(LBracket, Tokens(i, CommaLevel, X(RBracket, k))));
      TokensYield(i, CommaLevel, X(RBracket, k));
    case PostStep(inc, x) => TokensYield(x, PostfixLevel, X(if inc then PlusPlus else MinusMinus, k));
  }

  lemma UndefYield(t: string, k: Toks)
    ensures Tight(BodyTokens(Undef(t), k)) == Yield(Erase(Undef(t)), Tight(k))
  {
    assert YieldArgs(Args(TypeArg(t), NoArgs), Tight(k)) == T(TypeName(t), Tight(k));
    assert Tight(T(TypeName(t), X(RParen, k))) == T(TypeName(t), Tight(X(RParen, k)));
    CallTight(Macro("undef"), T(TypeName(t), X(RParen, k)));
  }

  lemma CallTight(t: Token, s: Toks)
    requires !t.Sym?
    ensures Tight(T(t, X(LParen, s))) == T(t, Tight(s))
  {
    assert Tight(X(LParen, s)) == Tight(s);
  }

  lemma CastTight(t: string, s: Toks)
    ensures Tight(X(LParen, T(TypeName(t), X(RParen, s)))) == T(TypeName(t), Tight(s))
  {
    assert Tight(X(RParen, s)) == Tight(s);
    assert Tight(T(TypeName(t), X(RParen, s))) == T(TypeName(t), Tight(X(RParen, s)));
  }

  lemma BracesTight(t: string, s: Toks)
    ensures Tight(X(LParen, T(TypeName(t), X(RParen, X(LBrace, s))))) == T(TypeName(t), X(LBrace, Tight(s)))
  {
    CastTight(t, X(LBrace, s));
  }

  lemma {:induction false} InfixYield(e: Expr, k: Toks)
    requires e.Infix?
    ensures Tight(BodyTokens(e, k)) == Yield(Erase(e), Tight(k))
    decreases Depth(e), 0
  {
    var s, t := InfixSym(e.o), Tokens(e.r, RightLevel(e.o), k);
    InfixTight(e.o, t);
    TokensYield(e.l, LeftLevel(e.o), X(s, t));
    TokensYield(e.r, RightLevel(e.o), k);
    assert BodyTokens(e, k) == Tokens(e.l, LeftLevel(e.o), X(s, t)) && Erase(e) == Bin(s, Erase(e.l), Erase(e.r));
  }

  lemma InfixTight(o: InfixOp, t: Toks)
    ensures Tight(X(InfixSym(o), t)) == X(InfixSym(o), Tight(t))
  {
    assert InfixSym(o) != LParen && InfixSym(o) != RParen;
  }

  lemma {:induction false} TernaryYield(e: Expr, k: Toks)
    requires e.Ternary?
    ensures Tight(BodyTokens(e, k)) == Yield(Erase(e), Tight(k))
    decreases Depth(e), 0
  {
    var t := Tokens(e.b, TernaryLevel - 1, k);
    var s := Tokens(e.a, TernaryLevel, X(Colon, t));
    TokensYield(e.c, TernaryLevel, X(Question, s));
    TokensYield(e.a, TernaryLevel, X(Colon, t));
    TokensYield(e.b, TernaryLevel - 1, k);
  }

  lemma {:induction false} ListYield(es: Exprs, k: Toks)
    ensures Tight(ListTokens(es, k)) == YieldArgs(EraseAll(es), Tight(k))
    decreases DepthAll(es), 4
  {
    if es.Item? {
      TokensYield(es.e, CommaLevel, MoreTokens(es.rest, k));
      if es.rest.Item? {
        ListYield(es.rest, k);
        assert MoreTokens(es.rest, k) == X(Sym.Comma, ListTokens(es.rest, k));
      }
    }
  }

  // ----- texts that differ -----

  /** The two texts have a different token at the same place. */
  predicate Differ(s: Toks, t: Toks) { s.T? && t.T? && (s.hd != t.hd || Differ(s.tl, t.tl)) }

  lemma {:induction s, t} DifferUnequal(s: Toks, t: Toks)
    requires Differ(s, t)
    ensures s != t
  {}

  lemma {:induction false} DifferYield(e: CExpr, s: Toks, t: Toks)
    requires Differ(s, t)
    ensures Differ(Yield(e, s), Yield(e, t))
  {
    match e
    case Name(_) =>
    case MacroUse(_, args) => DifferArgs(args, s, t);
    case TypeArg(_) =>
    case Compound(_, inits) => DifferArgs(inits, X(RBrace, s), X(RBrace, t));
    case Member(x, arrow, f) =>
      var dot := if arrow then Arrow else Dot;
      DifferYield(x, X(dot, T(Word(f), s)), X(dot, T(Word(f), t)));
    case Index(x, i) =>
      DifferYield(i, X(RBracket, s), X(RBracket, t));
      DifferYield(x, X(LBracket, Yield(i, X(RBracket, s))), X(LBracket, Yield(i, X(RBracket, t))));
    case CallOf(f, args) => DifferArgs(args, s, t); DifferYield(f, YieldArgs(args, s), YieldArgs(args, t));
    case Post(op, x) => DifferYield(x, X(op, s), X(op, t));
    case Pre(_, x) => DifferYield(x, s, t);
    case CastTo(_, x) => DifferYield(x, s, t);
    case Bin(op, l, r) => DifferYield(r, s, t); DifferYield(l, X(op, Yield(r, s)), X(op, Yield(r, t)));
    case Choice(c, a, b) =>
      DifferYield(b, s, t);
      var s1, t1 := X(Colon, Yield(b, s)), X(Colon, Yield(b, t));
      DifferYield(a, s1, t1);
      DifferYield(c, X(Question, Yield(a, s1)), X(Question, Yield(a, t1)));
  }

  lemma {:induction false} DifferArgs(args: CArgs, s: Toks, t: Toks)
    requires Differ(s, t)
    ensures Differ(YieldArgs(args, s), YieldArgs(args, t))
  {
    if args.Args? {
      if args.rest.Args? {
        DifferArgs(args.rest, s, t);
        DifferYield(args.e, X(Sym.Comma, YieldArgs(args.rest, s)), X(Sym.Comma, YieldArgs(args.rest, t)));
      } else {
        DifferYield(args.e, s, t);
      }
    }
  }
}
