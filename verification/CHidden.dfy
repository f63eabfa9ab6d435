/** Where two minus signs run together, the reader sees other tokens than were meant. */
module CHidden {
  import opened CTokens
  import opened CParser
  import opened CPrinter
  import opened CPrintable
  import opened CLexing
  import opened CYield

  /** Reading the text `k` gives something that differs from `y`, parentheses aside. */
  ghost predicate Wrong(k: seq<Piece>, y: Toks) { Differ(Tight(L(k)), y) }

  // ----- single tokens -----

  lemma WrongBlank(k: seq<Piece>, y: Toks)
    requires Wrong(k, y)
    ensures Wrong([Blank] + k, y)
  {
    BlankApart(k);
  }

  lemma WrongParen(s: Sym, k: seq<Piece>, y: Toks)
    requires (s == LParen || s == RParen) && Wrong(k, y)
    ensures Wrong(S(s) + k, y)
  {
    SolidApart(s, k);
  }

  lemma WrongSolid(s: Sym, k: seq<Piece>, y: Toks)
    requires Solid(s) && s != LParen && s != RParen && Wrong(k, y)
    ensures Wrong(S(s) + k, X(s, y))
  {
    SolidApart(s, k);
  }

  lemma WrongWhole(t: Token, k: seq<Piece>, y: Toks)
    requires !t.Sym? && Wrong(k, y)
    ensures Wrong([Tok(t)] + k, T(t, y))
  {
    WholeApart(t, k);
  }

  lemma WrongSpaced(s: Sym, k: seq<Piece>, y: Toks)
    requires s != LParen && s != RParen && Wrong(k, y)
    ensures Wrong(Spaced(s) + k, X(s, y))
  {
    SpacedApart(s, k);
  }

  /** A type in parentheses. */
  lemma WrongType(t: string, k: seq<Piece>, y: Toks)
    requires Wrong(k, y)
    ensures Wrong(S(LParen) + (Ty(t) + (S(RParen) + k)), T(TypeName(t), y))
  {
    WrongParen(RParen, k, y);
    WrongWhole(TypeName(t), S(RParen) + k, y);
    WrongParen(LParen, Ty(t) + (S(RParen) + k), T(TypeName(t), y));
  }

  // ----- expressions -----

  /** An illegible expression is read wrongly, and a wrong reading stays wrong behind a legible one. */
  lemma {:induction false} WrongText(e: Expr, cur: nat, k: seq<Piece>, y: Toks)
    requires Everywhere(Targets, e) && (Legible(e) ==> Wrong(k, y))
    ensures Wrong(Text(e, cur) + k, Yield(Erase(e), y))
    decreases Depth(e), 3
  {
    if Legible(e) {
      LexText(e, cur, k);
      TokensYield(e, cur, L(k));
      DifferYield(Erase(e), Tight(L(k)), y);
    } else if NeedsParentheses(e, cur) {
      CLexing.Assoc3(S(LParen), Body(e), S(RParen), k);
      WrongBody(e, S(RParen) + k, y);
      WrongParen(LParen, Body(e) + (S(RParen) + k), Yield(Erase(e), y));
    } else {
      WrongBody(e, k, y);
    }
  }

  lemma {:induction false} WrongBody(e: Expr, k: seq<Piece>, y: Toks)
    requires Everywhere(Targets, e) && !Legible(e)
    ensures Wrong(Body(e) + k, Yield(Erase(e), y))
    decreases Depth(e), 2
  {
    match e
    case Leaf(_) =>
    case Undef(_) =>
    case Aggregate(_, _) => WrongLists(e, k, y);
    case Intrinsic(_, _) => WrongLists(e, k, y);
    case Call(_, _) => WrongLists(e, k, y);
    case IntrinsicCast(_, _, _) => WrongCasts(e, k, y);
    case BitCast(_, _) => WrongCasts(e, k, y);
    case Cast(_, _) => WrongCasts(e, k, y);
    case Access(_, _, _) => WrongAccess(e, k, y);
    case Subscript(_, _) => WrongSubscript(e, k, y);
    case PostStep(_, _) => WrongStep(e, k, y);
    case Implicit(_) => WrongImplicit(e, k, y);
    case Prefix(_, _) => WrongPrefix(e, k, y);
    case Infix(_, _, _) => WrongInfix(e, k, y);
    case Ternary(_, _, _) => WrongTernary(e, k, y);
  }

  lemma {:induction false} WrongAccess(e: Expr, k: seq<Piece>, y: Toks)
    requires Everywhere(Targets, e) && !Legible(e) && e.Access?
    ensures Wrong(Body(e) + k, Yield(Erase(e), y))
    decreases Depth(e), 1
  {
    var s := if e.arrow then Arrow else Dot;
    CLexing.Assoc3(Text(e.e, PostfixLevel - 1), S(s), W(e.f), k);
    WrongText(e.e, PostfixLevel - 1, S(s) + (W(e.f) + k), X(s, T(Word(e.f), y)));
  }

  lemma {:induction false} WrongStep(e: Expr, k: seq<Piece>, y: Toks)
    requires Everywhere(Targets, e) && !Legible(e) && e.PostStep?
    ensures Wrong(Body(e) + k, Yield(Erase(e), y))
    decreases Depth(e), 1
  {
    var s := if e.inc then PlusPlus else MinusMinus;
    Assoc2(Text(e.e, PostfixLevel), S(s), k);
    WrongText(e.e, PostfixLevel, S(s) + k, X(s, y));
  }

  lemma {:induction false} WrongImplicit(e: Expr, k: seq<Piece>, y: Toks)
    requires Everywhere(Targets, e) && !Legible(e) && e.Implicit?
    ensures Wrong(Body(e) + k, Yield(Erase(e), y))
    decreases Depth(e), 1
  {
    StripFacts(e.e);
    EraseStrip(e.e);
    WrongText(Strip(e.e), Prec(e) - 1, k, y);
  }

  lemma {:induction false} WrongSubscript(e: Expr, k: seq<Piece>, y: Toks)
    requires Everywhere(Targets, e) && !Legible(e) && e.Subscript?
    ensures Wrong(Body(e) + k, Yield(Erase(e), y))
    decreases Depth(e), 1
  {
    var r := Text(e.i, CommaLevel) + (S(RBracket) + k);
    CLexing.Assoc4(Text(e.e, PostfixLevel - 1), S(LBracket), Text(e.i, CommaLevel), S(RBracket), k);
    if Legible(e.e) {
      WrongText(e.i, CommaLevel, S(RBracket) + k, X(RBracket, y));
      WrongSolid(LBracket, r, Yield(Erase(e.i), X(RBracket, y)));
    }
    WrongText(e.e, PostfixLevel - 1, S(LBracket) + r, X(LBracket, Yield(Erase(e.i), X(RBracket, y))));
  }

  lemma {:induction false} WrongCasts(e: Expr, k: seq<Piece>, y: Toks)
    requires Everywhere(Targets, e) && !Legible(e) && (e.IntrinsicCast? || e.BitCast? || e.Cast?)
    ensures Wrong(Body(e) + k, Yield(Erase(e), y))
    decreases Depth(e), 1
  {
    match e
    case IntrinsicCast(w, t, x) =>
      var r := Text(x, PrimaryLevel) + (S(RParen) + k);
      CLexing.Assoc6(M(RuntimeMacro(w)), S(LParen), Ty(t), S(Sym.Comma), Text(x, PrimaryLevel), S(RParen), k);
      WrongText(x, PrimaryLevel, S(RParen) + k, y);
      WrongTyped(RuntimeMacro(w), t, r, Erase(x), y);
    case BitCast(_, _) => WrongBitCast(e, k, y);
    case Cast(t, x) =>
      var r := Text(x, PrefixLevel - 1) + k;
      CLexing.Assoc5(S(LParen), Ty(t), S(RParen), [Blank], Text(x, PrefixLevel - 1), k);
      WrongText(x, PrefixLevel - 1, k, y);
      WrongBlank(r, Yield(Erase(x), y));
      WrongType(t, [Blank] + r, Yield(Erase(x), y));
  }

  lemma {:induction false} WrongBitCast(e: Expr, k: seq<Piece>, y: Toks)
    requires Everywhere(Targets, e) && !Legible(e) && e.BitCast?
    ensures Wrong(Body(e) + k, Yield(Erase(e), y))
    decreases Depth(e), 0
  {
    var r := Text(e.e, ParenthesesLevel) + (S(RParen) + k);
    WrongText(e.e, ParenthesesLevel, S(RParen) + k, y);
    WrongBlank(r, Yield(Erase(e.e), y));
    WrongTyped("bit_cast", e.t, [Blank] + r, Erase(e.e), y);
    BitCastText(e.t, e.e, k);
  }

  lemma BitCastText(t: string, x: Expr, k: seq<Piece>)
    ensures Body(BitCast(t, x)) + k
            == M("bit_cast") + (S(LParen) + (Ty(t) + (S(Sym.Comma) + ([Blank] + (Text(x,
                ParenthesesLevel) + (S(RParen) + k))))))
  {}

  /** A macro with a type and an expression. */
  lemma WrongTyped(w: string, t: string, r: seq<Piece>, e: CExpr, y: Toks)
    requires Wrong(r, Yield(e, y))
    ensures Wrong(M(w) + (S(LParen) + (Ty(t) + (S(Sym.Comma) + r))),
        Yield(MacroUse(w, Args(TypeArg(t), Args(e, NoArgs))), y))
  {
    var z := X(Sym.Comma, Yield(e, y));
    WrongSolid(Sym.Comma, r, Yield(e, y));
    WrongWhole(TypeName(t), S(Sym.Comma) + r, z);
    WrongParen(LParen, Ty(t) + (S(Sym.Comma) + r), T(TypeName(t), z));
    WrongWhole(Macro(w), S(LParen) + (Ty(t) + (S(Sym.Comma) + r)), T(TypeName(t), z));
    TypedYield(w, t, e, y);
  }

  /** Either the two minus signs are here, or the operator is read as meant. */
  lemma {:induction false} WrongPrefix(e: Expr, k: seq<Piece>, y: Toks)
    requires Everywhere(Targets, e) && !Legible(e) && e.Prefix?
    ensures Wrong(Body(e) + k, Yield(Erase(e), y))
    decreases Depth(e), 1
  {
    if !MinusOk(e) {
      WrongHidden(e, k, y);
    } else {
      WrongText(e.e, PrefixLevel - 1, k, y);
      WrongOperand(e, k, Yield(Erase(e.e), y));
    }
  }

  lemma WrongOperand(e: Expr, k: seq<Piece>, y: Toks)
    requires LvaluesOk(e) && e.Prefix? && MinusOk(e) && Wrong(Text(e.e, PrefixLevel - 1) + k, y)
    ensures Wrong(Body(e) + k, X(PrefixSym(e.op), y))
  {
    PrefixRead(e, k);
    assert PrefixSym(e.op) != LParen && PrefixSym(e.op) != RParen;
  }

  lemma WrongHidden(e: Expr, k: seq<Piece>, y: Toks)
    requires e.Prefix? && !MinusOk(e)
    ensures Wrong(Body(e) + k, Yield(Erase(e), y))
  {
    var r := HiddenText(e);
    var t := PrefixSym(Strip(e.e).op);
    CLexing.Assoc3(S(Minus), S(t), r, k);
    FirstOf(t, r + k);
    MinusMinusFirst(S(t) + (r + k));
    assert Erase(e) == Pre(Minus, Erase(e.e));
  }

  lemma ImplicitText(e: Expr, cur: nat)
    ensures Text(e, cur) == Text(Strip(e), cur)
  {
    StripFacts(e);
    if e.Implicit? {
      StripFacts(e.e);
      assert Body(e) == Text(Strip(e.e), Prec(e) - 1);
    }
  }

  /** The two minus signs are emitted side by side. */
  lemma HiddenText(e: Expr) returns (r: seq<Piece>)
    requires !MinusOk(e)
    ensures Body(e) == S(Minus) + S(PrefixSym(Strip(e.e).op)) + r
  {
    var x := Strip(e.e);
    StripFacts(e.e);
    ImplicitText(e.e, PrefixLevel - 1);
    r := Space(KeepsApart(x.op, x.e)) + Text(x.e, PrefixLevel - 1);
    assert Body(x) == S(PrefixSym(x.op)) + r;
    assert Body(e) == S(Minus) + [] + Body(x);
  }

  lemma MinusMinusFirst(k: seq<Piece>)
    requires CharAt(Glyphs(k), 0) == '-'
    ensures Starts(Lex(Glyphs(S(Minus) + k)), MinusMinus)
  {
    assert (S(Minus) + k)[0] == Tok(Token.Sym(Minus)) && (S(Minus) + k)[1..] == k;
    var g := Glyphs(S(Minus) + k);
    assert g == Spelled(Minus) + Glyphs(k);
    assert g[0] == Ch('-') && CharAt(g, 1) == '-';
  }

  lemma WrongRight(e: Expr, k: seq<Piece>, y: Toks)
    requires e.Infix? && Wrong(Text(e.r, RightLevel(e.o)) + k, y)
    ensures Wrong(AfterLeft(e, k), X(InfixSym(e.o), y))
  {
    OperatorRead(e, k);
    assert InfixSym(e.o) != LParen && InfixSym(e.o) != RParen;
  }

  lemma InfixIllegible(e: Expr)
    requires Everywhere(Targets, e) && !Legible(e) && e.Infix?
    ensures Everywhere(Targets, e.l) && Everywhere(Targets, e.r) && (Legible(e.l) ==> !Legible(e.r))
  {}

  lemma {:induction false} WrongInfix(e: Expr, k: seq<Piece>, y: Toks)
    requires Everywhere(Targets, e) && !Legible(e) && e.Infix?
    ensures Wrong(Body(e) + k, Yield(Erase(e), y))
    decreases Depth(e), 1
  {
    var r := Yield(Erase(e.r), y);
    InfixIllegible(e);
    if Legible(e.l) {
      WrongText(e.r, RightLevel(e.o), k, y);
      WrongRight(e, k, r);
    }
    WrongText(e.l, LeftLevel(e.o), AfterLeft(e, k), X(InfixSym(e.o), r));
    InfixText(e, k);
    assert Erase(e) == Bin(InfixSym(e.o), Erase(e.l), Erase(e.r));
  }

  lemma {:induction false} WrongTernary(e: Expr, k: seq<Piece>, y: Toks)
    requires Everywhere(Targets, e) && !Legible(e) && e.Ternary?
    ensures Wrong(Body(e) + k, Yield(Erase(e), y))
    decreases Depth(e), 1
  {
    var b := Text(e.b, TernaryLevel - 1) + k;
    var a := Text(e.a, TernaryLevel) + (Spaced(Colon) + b);
    var yb := X(Colon, Yield(Erase(e.b), y));
    CLexing.Assoc5(Text(e.c, TernaryLevel), Spaced(Question), Text(e.a, TernaryLevel), Spaced(Colon),
        Text(e.b, TernaryLevel - 1), k);
    if Legible(e.c) {
      if Legible(e.a) {
        WrongText(e.b, TernaryLevel - 1, k, y);
        WrongSpaced(Colon, b, Yield(Erase(e.b), y));
      }
      WrongText(e.a, TernaryLevel, Spaced(Colon) + b, yb);
      WrongSpaced(Question, a, Yield(Erase(e.a), yb));
    }
    WrongText(e.c, TernaryLevel, Spaced(Question) + a, X(Question, Yield(Erase(e.a), yb)));
  }

  lemma {:induction false} WrongAggregate(e: Expr, k: seq<Piece>, y: Toks)
    requires Everywhere(Targets, e) && !Legible(e) && e.Aggregate?
    ensures Wrong(Body(e) + k, Yield(Erase(e), y))
    decreases Depth(e), 0
  {
    var r := ListText(e.es) + (S(RBrace) + k);
    var z := YieldArgs(EraseAll(e.es), X(RBrace, y));
    CLexing.Assoc6(S(LParen), Ty(e.t), S(RParen), S(LBrace), ListText(e.es), S(RBrace), k);
    WrongList(e.es, S(RBrace) + k, X(RBrace, y));
    WrongSolid(LBrace, r, z);
    WrongType(e.t, S(LBrace) + r, X(LBrace, z));
  }

  lemma {:induction false} WrongLists(e: Expr, k: seq<Piece>, y: Toks)
    requires Everywhere(Targets, e) && !Legible(e) && (e.Aggregate? || e.Intrinsic? || e.Call?)
    ensures Wrong(Body(e) + k, Yield(Erase(e), y))
    decreases Depth(e), 1
  {
    match e
    case Aggregate(_, _) => WrongAggregate(e, k, y);
    case Intrinsic(w, es) =>
      var r := ListText(es) + (S(RParen) + k);
      var z := YieldArgs(EraseAll(es), y);
      CLexing.Assoc4(M(RuntimeMacro(w)), S(LParen), ListText(es), S(RParen), k);
      WrongList(es, S(RParen) + k, y);
      WrongParen(LParen, r, z);
      WrongWhole(Macro(RuntimeMacro(w)), S(LParen) + r, z);
    case Call(f, es) =>
      var r := ListText(es) + (S(RParen) + k);
      var z := YieldArgs(EraseAll(es), y);
      CLexing.Assoc4(Text(f, PostfixLevel - 1), S(LParen), ListText(es), S(RParen), k);
      if Legible(f) {
        WrongList(es, S(RParen) + k, y);
        WrongParen(LParen, r, z);
      }
      WrongText(f, PostfixLevel - 1, S(LParen) + r, z);
  }

  lemma {:induction false} WrongList(es: Exprs, k: seq<Piece>, y: Toks)
    requires EverywhereAll(Targets, es) && !AllLegible(es)
    ensures Wrong(ListText(es) + k, YieldArgs(EraseAll(es), y))
    decreases DepthAll(es), 4
  {
    var rest := es.rest;
    Assoc2(Text(es.e, CommaLevel), MoreText(rest), k);
    if rest.Empty? {
      assert AllLegible(rest);
      WrongText(es.e, CommaLevel, MoreText(rest) + k, y);
    } else {
      var r, z := ListText(rest) + k, YieldArgs(EraseAll(rest), y);
      MoreIsList(rest, k);
      if Legible(es.e) {
        WrongList(rest, k, y);
        WrongBlank(r, z);
        WrongSolid(Sym.Comma, [Blank] + r, z);
      }
      WrongText(es.e, CommaLevel, MoreText(rest) + k, X(Sym.Comma, z));
    }
  }

  lemma MoreIsList(es: Exprs, k: seq<Piece>)
    requires es.Item?
    ensures MoreText(es) + k == S(Sym.Comma) + ([Blank] + (ListText(es) + k))
  {
    CLexing.Assoc4(S(Sym.Comma), [Blank], Text(es.e, CommaLevel), MoreText(es.rest), k);
    Assoc2(Text(es.e, CommaLevel), MoreText(es.rest), k);
  }
}
