/** Which expressions can be read back, and the tokens their text consists of. */
module CPrintable {
  import opened CTokens
  import opened CParser
  import opened CPrinter

  // ----- the expressions that print faithfully -----

  /** `isLvalueExpression` */
  predicate Lvalue(e: Expr) {
    match e
    case Leaf(_) => true
    case Access(x, arrow, _) => arrow || Lvalue(x)
    case Subscript(_, _) => true
    case PostStep(_, _) => true
    case Prefix(op, _) => op == Increment || op == Decrement || op == Indirection
    case Infix(o, _, r) => o == Assign || (o == CommaOp && Lvalue(r))
    case _ => false
  }

  /** Operands that the dialect requires to be lvalues. */
  predicate LvaluesOk(e: Expr) {
    match e
    case PostStep(_, x) => Lvalue(x)
    case Prefix(op, x) => op == Increment || op == Decrement || op == Addressof ==> Lvalue(x)
    case Infix(o, l, _) => o == Assign ==> Lvalue(l)
    case _ => true
  }

  predicate IsInfix(e: Expr, o: InfixOp) { e.Infix? && e.o == o }

  predicate StartsWithMinus(e: Expr) { e.Prefix? && (e.op == Neg || e.op == Decrement) }

  /** No implicit cast stands between two minus signs. */
  predicate MinusOk(e: Expr) {
    e.Prefix? ==> !(e.op == Neg && e.e.Implicit? && StartsWithMinus(Strip(e.e)))
  }

  /** The shapes that are printed wrongly: an assignment as third operand of a conditional, an implicit cast
      between two minus signs, an empty initializer list, and an operand of an intrinsic that shows the comma
      of an initializer list. */
  predicate RootOk(e: Expr) {
    match e
    case Ternary(_, _, b) => !IsInfix(Strip(b), Assign)
    case Prefix(_, _) => MinusOk(e)
    case Aggregate(_, es) => es.Item?
    case Intrinsic(_, es) => OpenCommasAll(es) == 0
    case IntrinsicCast(_, _, x) => OpenCommas(x, PrimaryLevel) == 0
    case _ => true
  }

  /** The commas outside of parentheses in the text of an expression at the ambient precedence `cur`. */
  function OpenCommas(e: Expr, cur: nat): nat
    decreases Depth(e), 1
  {
    if NeedsParentheses(e, cur) then 0 else BodyCommas(e)
  }

  function BodyCommas(e: Expr): nat
    decreases Depth(e), 0
  {
    match e
    case Aggregate(_, es) => OpenCommasAll(es) + Between(es)
    case Access(x, _, _) => OpenCommas(x, PostfixLevel - 1)
    case Subscript(x, i) => OpenCommas(x, PostfixLevel - 1) + OpenCommas(i, CommaLevel)
    case Call(f, _) => OpenCommas(f, PostfixLevel - 1)
    case PostStep(_, x) => OpenCommas(x, PostfixLevel)
    case Implicit(x) => OpenCommas(Strip(x), Prec(e) - 1)
    case Cast(_, x) => OpenCommas(x, PrefixLevel - 1)
    case Prefix(_, x) => OpenCommas(x, PrefixLevel - 1)
    case Infix(o, l, r) =>
      OpenCommas(l, LeftLevel(o)) + (if o == CommaOp then 1 else 0) + OpenCommas(r, RightLevel(o))
    case Ternary(c, a, b) =>
      OpenCommas(c, TernaryLevel) + OpenCommas(a, TernaryLevel) + OpenCommas(b, TernaryLevel - 1)
    case _ => 0
  }

  function OpenCommasAll(es: Exprs): nat
    decreases DepthAll(es), 2
  {
    match es case Empty => 0 case Item(e, r) => OpenCommas(e, CommaLevel) + OpenCommasAll(r)
  }

  /** The commas between the items of a list. */
  function Between(es: Exprs): nat { if es.Empty? || es.rest.Empty? then 0 else 1 + Between(es.rest) }

  // ----- conditions on all nodes -----

  /** Operands are lvalues where they have to be; no minus signs run together, either; no shape is printed
      wrongly. */
  datatype Check = Targets | Legibility | Printability

  predicate NodeOk(c: Check, e: Expr) {
    LvaluesOk(e) && match c case Targets => true case Legibility => MinusOk(e) case Printability => RootOk(e)
  }

  predicate Everywhere(c: Check, e: Expr)
    decreases Depth(e), 1
  {
    NodeOk(c, e) && Below(c, e)
  }

  predicate Below(c: Check, e: Expr)
    decreases Depth(e), 0
  {
    match e
    case Leaf(_) => true
    case Undef(_) => true
    case Aggregate(_, es) => EverywhereAll(c, es)
    case Intrinsic(_, es) => EverywhereAll(c, es)
    case IntrinsicCast(_, _, x) => Everywhere(c, x)
    case Access(x, _, _) => Everywhere(c, x)
    case Subscript(x, i) => Everywhere(c, x) && Everywhere(c, i)
    case Call(f, es) => Everywhere(c, f) && EverywhereAll(c, es)
    case PostStep(_, x) => Everywhere(c, x)
    case BitCast(_, x) => Everywhere(c, x)
    case Implicit(x) => Everywhere(c, x)
    case Cast(_, x) => Everywhere(c, x)
    case Prefix(_, x) => Everywhere(c, x)
    case Infix(_, l, r) => Everywhere(c, l) && Everywhere(c, r)
    case Ternary(x, a, b) => Everywhere(c, x) && Everywhere(c, a) && Everywhere(c, b)
  }

  predicate EverywhereAll(c: Check, es: Exprs)
    decreases DepthAll(es), 2
  {
    match es case Empty => true case Item(e, r) => Everywhere(c, e) && EverywhereAll(c, r)
  }

  /** The expression is read back. */
  predicate Printable(e: Expr)
    ensures Printable(e) <==> LvaluesOk(e) && RootOk(e) && KidsOk(e)
  {
    Everywhere(Printability, e)
  }

  predicate KidsOk(e: Expr) { Below(Printability, e) }

  predicate AllPrintable(es: Exprs) { EverywhereAll(Printability, es) }

  /** The text splits into the tokens that were meant. */
  predicate Legible(e: Expr)
    ensures Legible(e) <==> LvaluesOk(e) && MinusOk(e) && Below(Legibility, e)
  {
    Everywhere(Legibility, e)
  }

  predicate AllLegible(es: Exprs) { EverywhereAll(Legibility, es) }

  predicate Implies(c: Check, d: Check) { d == Targets || c == d || (c == Printability && d == Legibility) }

  lemma {:induction false} Weaken(c: Check, d: Check, e: Expr)
    requires Everywhere(c, e) && Implies(c, d)
    ensures Everywhere(d, e)
    decreases Depth(e), 1
  {
    WeakenBelow(c, d, e);
  }

  lemma {:induction false} WeakenBelow(c: Check, d: Check, e: Expr)
    requires Below(c, e) && Implies(c, d)
    ensures Below(d, e)
    decreases Depth(e), 0
  {
    match e
    case Leaf(_) =>
    case Undef(_) =>
    case Aggregate(_, es) => WeakenAll(c, d, es);
    case Intrinsic(_, es) => WeakenAll(c, d, es);
    case IntrinsicCast(_, _, x) => Weaken(c, d, x);
    case Access(x, _, _) => Weaken(c, d, x);
    case Subscript(x, i) =>
      Weaken(c, d, x);
      Weaken(c, d, i);
    case Call(f, es) =>
      Weaken(c, d, f);
      WeakenAll(c, d, es);
    case PostStep(_, x) => Weaken(c, d, x);
    case BitCast(_, x) => Weaken(c, d, x);
    case Implicit(x) => Weaken(c, d, x);
    case Cast(_, x) => Weaken(c, d, x);
    case Prefix(_, x) => Weaken(c, d, x);
    case Infix(_, l, r) =>
      Weaken(c, d, l);
      Weaken(c, d, r);
    case Ternary(x, a, b) =>
      Weaken(c, d, x);
      Weaken(c, d, a);
      Weaken(c, d, b);
  }

  lemma {:induction false} WeakenAll(c: Check, d: Check, es: Exprs)
    requires EverywhereAll(c, es) && Implies(c, d)
    ensures EverywhereAll(d, es)
    decreases DepthAll(es), 2
  {
    if es.Item? {
      Weaken(c, d, es.e);
      WeakenAll(c, d, es.rest);
    }
  }

  lemma {:induction false} StripFacts(e: Expr)
    ensures Prec(Strip(e)) == Prec(e) && forall c :: Everywhere(c, e) <==> Everywhere(c, Strip(e))
  {
    if e.Implicit? {
      StripFacts(e.e);
      assert forall c :: Below(c, e) == Everywhere(c, e.e);
    }
  }

  lemma LvalueFacts(e: Expr)
    requires Lvalue(e)
    ensures !e.Implicit? && !e.Cast? && (e.Prefix? ==> e.op != Addressof && e.op != Neg)
    ensures Prec(e) <= 2 || Prec(e) >= 13
  {}

  // ----- tokens -----

  /** The tokens of an expression, followed by `k`. */
  function Tokens(e: Expr, cur: nat, k: Toks): Toks
    decreases Depth(e), 1
  {
    if NeedsParentheses(e, cur) then X(LParen, BodyTokens(e, X(RParen, k))) else BodyTokens(e, k)
  }

  function X(s: Sym, k: Toks): Toks { T(Token.Sym(s), k) }

  function BodyTokens(e: Expr, k: Toks): Toks
    decreases Depth(e), 0
  {
    match e
    case Leaf(w) => T(Word(w), k)
    case Undef(t) => T(Macro("undef"), X(LParen, T(TypeName(t), X(RParen, k))))
    case Aggregate(t, es) => X(LParen, T(TypeName(t), X(RParen, X(LBrace, ListTokens(es, X(RBrace, k))))))
    case Intrinsic(w, es) => T(Macro(RuntimeMacro(w)), X(LParen, ListTokens(es, X(RParen, k))))
    case IntrinsicCast(w, t, x) =>
      T(Macro(RuntimeMacro(w)), X(LParen, T(TypeName(t), X(Sym.Comma, Tokens(x, PrimaryLevel, X(RParen, k))))))
    case Access(x, arrow, f) => Tokens(x, PostfixLevel - 1, X(if arrow then Arrow else Dot, T(Word(f), k)))
    case Subscript(x, i) => Tokens(x, PostfixLevel - 1, X(LBracket, Tokens(i, CommaLevel, X(RBracket, k))))
    case Call(f, es) => Tokens(f, PostfixLevel - 1, X(LParen, ListTokens(es, X(RParen, k))))
    case PostStep(inc, x) => Tokens(x, PostfixLevel, X(if inc then PlusPlus else MinusMinus, k))
    case BitCast(t, x) =>
      T(Macro("bit_cast"), X(LParen, T(TypeName(t), X(Sym.Comma, Tokens(x, ParenthesesLevel, X(RParen, k))))))
    case Implicit(x) => Tokens(Strip(x), Prec(e) - 1, k)
    case Cast(t, x) => X(LParen, T(TypeName(t), X(RParen, Tokens(x, PrefixLevel - 1, k))))
    case Prefix(op, x) => X(PrefixSym(op), Tokens(x, PrefixLevel - 1, k))
    case Infix(o, l, r) => Tokens(l, LeftLevel(o), X(InfixSym(o), Tokens(r, RightLevel(o), k)))
    case Ternary(c, a, b) =>
      Tokens(c, TernaryLevel, X(Question, Tokens(a, TernaryLevel, X(Colon, Tokens(b, TernaryLevel - 1, k)))))
  }

  function ListTokens(es: Exprs, k: Toks): Toks
    decreases DepthAll(es), 2
  {
    match es case Empty => k case Item(e, r) => Tokens(e, CommaLevel, MoreTokens(r, k))
  }

  function MoreTokens(es: Exprs, k: Toks): Toks
    decreases DepthAll(es), 2
  {
    match es case Empty => k case Item(e, r) => X(Sym.Comma, Tokens(e, CommaLevel, MoreTokens(r, k)))
  }

  // ----- the syntax tree -----

  /** The C expression that is meant: implicit casts leave no trace. */
  function Erase(e: Expr): CExpr {
    match e
    case Leaf(w) => Name(w)
    case Undef(t) => MacroUse("undef", Args(TypeArg(t), NoArgs))
    case Aggregate(t, es) => Compound(t, EraseAll(es))
    case Intrinsic(w, es) => MacroUse(RuntimeMacro(w), EraseAll(es))
    case IntrinsicCast(w, t, x) => MacroUse(RuntimeMacro(w), Args(TypeArg(t), Args(Erase(x), NoArgs)))
    case Access(x, arrow, f) => Member(Erase(x), arrow, f)
    case Subscript(x, i) => Index(Erase(x), Erase(i))
    case Call(f, es) => CallOf(Erase(f), EraseAll(es))
    case PostStep(inc, x) => Post(if inc then PlusPlus else MinusMinus, Erase(x))
    case BitCast(t, x) => BitCastOf(t, Erase(x))
    case Implicit(x) => Erase(x)
    case Cast(t, x) => CastTo(t, Erase(x))
    case Prefix(op, x) => Pre(PrefixSym(op), Erase(x))
    case Infix(o, l, r) => Bin(InfixSym(o), Erase(l), Erase(r))
    case Ternary(c, a, b) => Choice(Erase(c), Erase(a), Erase(b))
  }

  function EraseAll(es: Exprs): CArgs {
    match es case Empty => NoArgs case Item(e, r) => Args(Erase(e), EraseAll(r))
  }

  lemma {:induction false} EraseStrip(e: Expr)
    ensures Erase(Strip(e)) == Erase(e)
  {
    if e.Implicit? { EraseStrip(e.e); }
  }
}
