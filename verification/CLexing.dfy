/** Reading the emitted text as tokens gives the tokens that were meant. */
module CLexing {
  import opened Wrappers
  import opened CTokens
  import opened CPrinter
  import opened CPrintable

  function L(k: seq<Piece>): Toks { Lex(Glyphs(k)) }

  // ----- single pieces -----

  predicate Solid(s: Sym) {
    match s
    case LParen => true case RParen => true case LBracket => true case RBracket => true case LBrace => true
    case RBrace => true
    case Comma => true case Arrow => true case PlusPlus => true case MinusMinus => true case Question => true
    case Colon => true
    case _ => false
  }

  /** No punctuator is longer than a solid one. */
  lemma SolidApart(s: Sym, k: seq<Piece>)
    requires Solid(s)
    ensures L(S(s) + k) == T(Token.Sym(s), L(k))
  {
    LexPiece(Tok(Token.Sym(s)), k);
  }

  lemma SymApart(s: Sym, k: seq<Piece>)
    requires CharAt(Glyphs(k), 0) == ' '
    ensures L(S(s) + k) == T(Token.Sym(s), L(k))
  {
    FitsSelf(s);
    LexPiece(Tok(Token.Sym(s)), k);
  }

  lemma FitsSelf(s: Sym)
    ensures |Spell(s)| == 1 ==> forall c :: Longest(Spell(s)[0], ' ', c) == Some(s)
    ensures |Spell(s)| == 2 ==> Longest(Spell(s)[0], Spell(s)[1], ' ') == Some(s)
    ensures |Spell(s)| == 3 ==> Longest(Spell(s)[0], Spell(s)[1], Spell(s)[2]) == Some(s)
  {}

  lemma WholeApart(t: Token, k: seq<Piece>)
    requires !t.Sym?
    ensures L([Tok(t)] + k) == T(t, L(k)) && CharAt(Glyphs([Tok(t)] + k), 0) == ' '
  {
    LexPiece(Tok(t), k);
    assert ([Tok(t)] + k)[0] == Tok(t);
    assert Glyphs([Tok(t)] + k) == GlyphsOf(Tok(t)) + Glyphs(([Tok(t)] + k)[1..]);
  }

  lemma BlankApart(k: seq<Piece>)
    ensures L([Blank] + k) == L(k) && CharAt(Glyphs([Blank] + k), 0) == ' '
  {
    LexPiece(Blank, k);
    assert ([Blank] + k)[0] == Blank;
    assert Glyphs([Blank] + k) == GlyphsOf(Blank) + Glyphs(([Blank] + k)[1..]);
  }

  lemma FirstOf(s: Sym, k: seq<Piece>)
    ensures CharAt(Glyphs(S(s) + k), 0) == Spell(s)[0]
  {
    NoBlank(s);
    assert (S(s) + k)[0] == Tok(Token.Sym(s));
    assert Glyphs(S(s) + k) == Spelled(s) + Glyphs((S(s) + k)[1..]);
  }

  // ----- the first character -----

  /** The only text that begins with the character of an operator is that of a prefix operator. */
  ghost predicate LeadOk(e: Expr, cur: nat, c: char) {
    || c == ' ' || c == '('
    || (cur < PrefixLevel && Strip(e).Prefix? && c == Spell(PrefixSym(Strip(e).op))[0])
  }

  lemma {:induction false} Lead(e: Expr, cur: nat, k: seq<Piece>)
    requires cur >= PrefixLevel - 1
    ensures LeadOk(e, cur, CharAt(Glyphs(Text(e, cur) + k), 0))
    decreases Depth(e), 1
  {
    if NeedsParentheses(e, cur) {
      assert Text(e, cur) + k == S(LParen) + (Body(e) + S(RParen) + k);
      FirstOf(LParen, Body(e) + S(RParen) + k);
    } else {
      LeadBody(e, k);
      StripFacts(e);
    }
  }

  lemma {:induction false} LeadBody(e: Expr, k: seq<Piece>)
    requires Prec(e) >= PrefixLevel
    ensures LeadOk(e, if Prec(e) > PrefixLevel then PrefixLevel else PrefixLevel - 1, CharAt(Glyphs(Body(e) + k), 0))
    decreases Depth(e), 0
  {
    if e.Access? || e.Subscript? || e.Call? || e.PostStep? {
      var x, level, r := FirstOperand(e);
      Assoc2(Text(x, level), r, k);
      Lead(x, level, r + k);
    } else if e.Implicit? {
      StripFacts(e.e);
      Lead(Strip(e.e), Prec(e) - 1, k);
    } else {
      var p, r := FirstPiece(e);
      Assoc2([p], r, k);
      assert ([p] + (r + k))[0] == p;
      if p.t.Sym? { FirstOf(p.t.s, r + k); } else { WholeApart(p.t, r + k); }
    }
  }

  lemma Assoc2(a: seq<Piece>, b: seq<Piece>, c: seq<Piece>)
    ensures a + b + c == a + (b + c)
  {}

  lemma FirstOperand(e: Expr) returns (x: Expr, level: nat, r: seq<Piece>)
    requires e.Access? || e.Subscript? || e.Call? || e.PostStep?
    ensures Body(e) == Text(x, level) + r && level >= PrefixLevel && Depth(x) < Depth(e)
  {
    match e
    case Access(y, arrow, f) => x, level, r := y, PostfixLevel - 1, S(if arrow then Arrow else Dot) + W(f);
    case Subscript(y, i) => x, level, r := y, PostfixLevel - 1, S(LBracket) + Text(i, CommaLevel) + S(RBracket);
    case Call(f, es) => x, level, r := f, PostfixLevel - 1, S(LParen) + ListText(es) + S(RParen);
    case PostStep(inc, y) => x, level, r := y, PostfixLevel, S(if inc then PlusPlus else MinusMinus);
  }

  lemma FirstPiece(e: Expr) returns (p: Piece, r: seq<Piece>)
    requires Prec(e) >= PrefixLevel && !(e.Access? || e.Subscript? || e.Call? || e.PostStep? || e.Implicit?)
    ensures Body(e) == [p] + r && p.Tok?
    ensures p.t.Sym? ==> p.t.s == LParen || (e.Prefix? && p.t.s == PrefixSym(e.op))
  {
    p, r := Body(e)[0], Body(e)[1..];
  }

  // ----- whole expressions -----

  lemma Assoc3(a: seq<Piece>, b: seq<Piece>, c: seq<Piece>, k: seq<Piece>)
    ensures a + b + c + k == a + (b + (c + k))
  {}

  lemma Assoc4(a: seq<Piece>, b: seq<Piece>, c: seq<Piece>, d: seq<Piece>, k: seq<Piece>)
    ensures a + b + c + d + k == a + (b + (c + (d + k)))
  {}

  lemma Assoc5(a: seq<Piece>, b: seq<Piece>, c: seq<Piece>, d: seq<Piece>, e: seq<Piece>, k: seq<Piece>)
    ensures a + b + c + d + e + k == a + (b + (c + (d + (e + k))))
  {}

  lemma Assoc6(a: seq<Piece>, b: seq<Piece>, c: seq<Piece>, d: seq<Piece>, e: seq<Piece>, f: seq<Piece>, k: seq<Piece>)
    ensures a + b + c + d + e + f + k == a + (b + (c + (d + (e + (f + k)))))
  {}

  /** A symbol between spaces. */
  lemma SpacedApart(s: Sym, k: seq<Piece>)
    ensures L(Spaced(s) + k) == T(Token.Sym(s), L(k))
  {
    Assoc3([Blank], S(s), [Blank], k);
    BlankApart(S(s) + ([Blank] + k));
    BlankApart(k);
    SymApart(s, [Blank] + k);
  }

  /** Every token of the text of an expression is read as it was meant. */
  lemma {:induction false} LexText(e: Expr, cur: nat, k: seq<Piece>)
    requires Legible(e)
    ensures L(Text(e, cur) + k) == Tokens(e, cur, L(k))
    decreases Depth(e), 2
  {
    if NeedsParentheses(e, cur) {
      Assoc3(S(LParen), Body(e), S(RParen), k);
      SolidApart(LParen, Body(e) + (S(RParen) + k));
      LexBody(e, S(RParen) + k);
      SolidApart(RParen, k);
    } else {
      LexBody(e, k);
    }
  }

  lemma {:induction false} LexBody(e: Expr, k: seq<Piece>)
    requires Legible(e)
    ensures L(Body(e) + k) == BodyTokens(e, L(k))
    decreases Depth(e), 1
  {
    match e
    case Leaf(w) => WholeApart(Word(w), k);
    case Undef(t) =>
      Assoc4(M("undef"), S(LParen), Ty(t), S(RParen), k);
      WholeApart(Macro("undef"), S(LParen) + (Ty(t) + (S(RParen) + k)));
      LexOpen(t, S(RParen) + k);
      SolidApart(RParen, k);
    case Aggregate(_, _) => LexLists(e, k);
    case Intrinsic(_, _) => LexLists(e, k);
    case Call(_, _) => LexLists(e, k);
    case IntrinsicCast(_, _, _) => LexIntrinsicCast(e, k);
    case Access(x, arrow, f) =>
      var s := if arrow then Arrow else Dot;
      Assoc3(Text(x, PostfixLevel - 1), S(s), W(f), k);
      LexText(x, PostfixLevel - 1, S(s) + (W(f) + k));
      WholeApart(Word(f), k);
      SymApart(s, W(f) + k);
    case Subscript(x, i) =>
      var r := Text(i, CommaLevel) + (S(RBracket) + k);
      Assoc4(Text(x, PostfixLevel - 1), S(LBracket), Text(i, CommaLevel), S(RBracket), k);
      LexText(x, PostfixLevel - 1, S(LBracket) + r);
      SolidApart(LBracket, r);
      LexText(i, CommaLevel, S(RBracket) + k);
      SolidApart(RBracket, k);
    case PostStep(inc, x) =>
      var s := if inc then PlusPlus else MinusMinus;
      Assoc2(Text(x, PostfixLevel), S(s), k);
      LexText(x, PostfixLevel, S(s) + k);
      SolidApart(s, k);
    case BitCast(_, _) => LexBitCast(e, k);
    case Implicit(x) =>
      StripFacts(x);
      LexText(Strip(x), Prec(e) - 1, k);
    case Cast(t, x) =>
      var r := Text(x, PrefixLevel - 1) + k;
      Assoc5(S(LParen), Ty(t), S(RParen), [Blank], Text(x, PrefixLevel - 1), k);
      LexOpen(t, S(RParen) + ([Blank] + r));
      SolidApart(RParen, [Blank] + r);
      BlankApart(r);
      LexText(x, PrefixLevel - 1, k);
    case Prefix(_, _) => LexPrefix(e, k);
    case Infix(_, _, _) => LexInfix(e, k);
    case Ternary(_, _, _) => LexTernary(e, k);
  }

  lemma {:induction false} LexIntrinsicCast(e: Expr, k: seq<Piece>)
    requires Legible(e) && e.IntrinsicCast?
    ensures L(Body(e) + k) == BodyTokens(e, L(k))
    decreases Depth(e), 0
  {
    var m, x := RuntimeMacro(e.w), Text(e.e, PrimaryLevel);
    var r := x + (S(RParen) + k);
    Assoc6(M(m), S(LParen), Ty(e.t), S(Sym.Comma), x, S(RParen), k);
    WholeApart(Macro(m), S(LParen) + (Ty(e.t) + (S(Sym.Comma) + r)));
    LexOpen(e.t, S(Sym.Comma) + r);
    SolidApart(Sym.Comma, r);
    LexText(e.e, PrimaryLevel, S(RParen) + k);
    SolidApart(RParen, k);
  }

  lemma {:induction false} LexTernary(e: Expr, k: seq<Piece>)
    requires Legible(e) && e.Ternary?
    ensures L(Body(e) + k) == BodyTokens(e, L(k))
    decreases Depth(e), 0
  {
    var c, a, b := Text(e.c, TernaryLevel), Text(e.a, TernaryLevel), Text(e.b, TernaryLevel - 1);
    var r := a + (Spaced(Colon) + (b + k));
    Assoc5(c, Spaced(Question), a, Spaced(Colon), b, k);
    LexText(e.c, TernaryLevel, Spaced(Question) + r);
    SpacedApart(Question, r);
    LexText(e.a, TernaryLevel, Spaced(Colon) + (b + k));
    SpacedApart(Colon, b + k);
    LexText(e.b, TernaryLevel - 1, k);
  }

  lemma LexOpen(t: string, k: seq<Piece>)
    ensures L(S(LParen) + (Ty(t) + k)) == X(LParen, T(TypeName(t), L(k)))
  {
    SolidApart(LParen, Ty(t) + k);
    WholeApart(TypeName(t), k);
  }

  lemma {:induction false} LexBitCast(e: Expr, k: seq<Piece>)
    requires Legible(e) && e.BitCast?
    ensures L(Body(e) + k) == BodyTokens(e, L(k))
    decreases Depth(e), 0
  {
    var m, c, x := M("bit_cast"), S(Sym.Comma), Text(e.e, ParenthesesLevel);
    var r := x + (S(RParen) + k);
    Assoc6(m, S(LParen), Ty(e.t), c + [Blank], x, S(RParen), k);
    assert m + S(LParen) + Ty(e.t) + c + [Blank] == m + S(LParen) + Ty(e.t) + (c + [Blank]);
    Assoc2(c, [Blank], r);
    WholeApart(Macro("bit_cast"), S(LParen) + (Ty(e.t) + ((c + [Blank]) + r)));
    LexOpen(e.t, (c + [Blank]) + r);
    SolidApart(Sym.Comma, [Blank] + r);
    BlankApart(r);
    LexText(e.e, ParenthesesLevel, S(RParen) + k);
    SolidApart(RParen, k);
  }

  lemma PrefixApart(op: PrefixOp, x: Expr, g: seq<Glyph>)
    requires LeadOk(x, PrefixLevel - 1, CharAt(g, 0)) && LvaluesOk(Prefix(op, x)) && MinusOk(Prefix(op, x))
    requires !KeepsApart(op, x)
    ensures Apart(PrefixSym(op), g)
  {
    if Lvalue(x) { LvalueFacts(x); }
    PrefixNext(op, Strip(x), CharAt(g, 0), CharAt(g, 1));
  }

  lemma PrefixNext(op: PrefixOp, x: Expr, c: char, d: char)
    requires c == ' ' || c == '(' || (x.Prefix? && c == Spell(PrefixSym(x.op))[0])
    requires op == Neg ==> !StartsWithMinus(x)
    requires op == Addressof && x.Prefix? ==> x.op != Addressof
    ensures var t := Spell(PrefixSym(op));
            |t| <= 2 && Longest(t[0], if |t| > 1 then t[1] else c, if |t| > 1 then c else d) == Some(PrefixSym(op))
  {}

  lemma PrefixRead(e: Expr, k: seq<Piece>)
    requires LvaluesOk(e) && e.Prefix? && MinusOk(e)
    ensures L(Body(e) + k) == X(PrefixSym(e.op), L(Text(e.e, PrefixLevel - 1) + k))
  {
    var s, x, space := PrefixSym(e.op), Text(e.e, PrefixLevel - 1), Space(KeepsApart(e.op, e.e));
    Assoc3(S(s), space, x, k);
    if KeepsApart(e.op, e.e) {
      BlankApart(x + k);
      SymApart(s, space + (x + k));
    } else {
      assert space + (x + k) == x + k;
      Lead(e.e, PrefixLevel - 1, k);
      PrefixApart(e.op, e.e, Glyphs(x + k));
      LexPiece(Tok(Token.Sym(s)), x + k);
    }
  }

  lemma {:induction false} LexPrefix(e: Expr, k: seq<Piece>)
    requires Legible(e) && e.Prefix?
    ensures L(Body(e) + k) == BodyTokens(e, L(k))
    decreases Depth(e), 0
  {
    LexText(e.e, PrefixLevel - 1, k);
    PrefixRead(e, k);
  }

  /** The text of an infix operator and what follows it. */
  function AfterLeft(e: Expr, k: seq<Piece>): seq<Piece>
    requires e.Infix?
  {
    Space(e.o != CommaOp) + (S(InfixSym(e.o)) + ([Blank] + (Text(e.r, RightLevel(e.o)) + k)))
  }

  lemma OperatorRead(e: Expr, k: seq<Piece>)
    requires e.Infix?
    ensures L(AfterLeft(e, k)) == X(InfixSym(e.o), L(Text(e.r, RightLevel(e.o)) + k))
  {
    var r := Text(e.r, RightLevel(e.o)) + k;
    BlankApart(r);
    SymApart(InfixSym(e.o), [Blank] + r);
    if e.o == CommaOp {
      assert AfterLeft(e, k) == S(InfixSym(e.o)) + ([Blank] + r);
    } else {
      BlankApart(S(InfixSym(e.o)) + ([Blank] + r));
    }
  }

  lemma InfixText(e: Expr, k: seq<Piece>)
    requires e.Infix?
    ensures Body(e) + k == Text(e.l, LeftLevel(e.o)) + AfterLeft(e, k)
  {
    Assoc5(Text(e.l, LeftLevel(e.o)), Space(e.o != CommaOp), S(InfixSym(e.o)), [Blank], Text(e.r, RightLevel(e.o)), k);
  }

  lemma {:induction false} LexInfix(e: Expr, k: seq<Piece>)
    requires Legible(e) && e.Infix?
    ensures L(Body(e) + k) == BodyTokens(e, L(k))
    decreases Depth(e), 0
  {
    InfixText(e, k);
    OperatorRead(e, k);
    LexText(e.l, LeftLevel(e.o), AfterLeft(e, k));
    LexText(e.r, RightLevel(e.o), k);
  }

  lemma {:induction false} LexLists(e: Expr, k: seq<Piece>)
    requires Legible(e) && (e.Aggregate? || e.Intrinsic? || e.Call?)
    ensures L(Body(e) + k) == BodyTokens(e, L(k))
    decreases Depth(e), 0
  {
    match e
    case Aggregate(t, es) =>
      var r := ListText(es) + (S(RBrace) + k);
      Assoc6(S(LParen), Ty(t), S(RParen), S(LBrace), ListText(es), S(RBrace), k);
      LexOpen(t, S(RParen) + (S(LBrace) + r));
      SolidApart(RParen, S(LBrace) + r);
      SolidApart(LBrace, r);
      LexList(es, S(RBrace) + k);
      SolidApart(RBrace, k);
    case Intrinsic(w, es) =>
      var r := ListText(es) + (S(RParen) + k);
      Assoc4(M(RuntimeMacro(w)), S(LParen), ListText(es), S(RParen), k);
      WholeApart(Macro(RuntimeMacro(w)), S(LParen) + r);
      SolidApart(LParen, r);
      LexList(es, S(RParen) + k);
      SolidApart(RParen, k);
    case Call(f, es) =>
      var r := ListText(es) + (S(RParen) + k);
      Assoc4(Text(f, PostfixLevel - 1), S(LParen), ListText(es), S(RParen), k);
      LexText(f, PostfixLevel - 1, S(LParen) + r);
      SolidApart(LParen, r);
      LexList(es, S(RParen) + k);
      SolidApart(RParen, k);
  }

  lemma {:induction false} LexList(es: Exprs, k: seq<Piece>)
    requires AllLegible(es)
    ensures L(ListText(es) + k) == ListTokens(es, L(k))
    decreases DepthAll(es), 3
  {
    if es.Item? {
      Assoc2(Text(es.e, CommaLevel), MoreText(es.rest), k);
      LexText(es.e, CommaLevel, MoreText(es.rest) + k);
      LexMore(es.rest, k);
    } else {
      assert [] + k == k;
    }
  }

  lemma {:induction false} LexMore(es: Exprs, k: seq<Piece>)
    requires AllLegible(es)
    ensures L(MoreText(es) + k) == MoreTokens(es, L(k))
    decreases DepthAll(es), 3
  {
    if es.Item? {
      var r := Text(es.e, CommaLevel) + (MoreText(es.rest) + k);
      Assoc4(S(Sym.Comma), [Blank], Text(es.e, CommaLevel), MoreText(es.rest), k);
      SolidApart(Sym.Comma, [Blank] + r);
      BlankApart(r);
      LexText(es.e, CommaLevel, MoreText(es.rest) + k);
      LexMore(es.rest, k);
    } else {
      assert [] + k == k;
    }
  }
}
