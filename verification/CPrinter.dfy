/** Printing Clift expressions as C, with parentheses from an ambient precedence. */
module CPrinter {
  import opened CTokens

  // ----- expressions -----

  datatype PrefixOp = Neg | BitNot | LogicalNot | Increment | Decrement | Addressof | Indirection

  datatype InfixOp =
    | Mul | SDiv | UDiv | SRem | URem | Add | Sub | PtrAdd | PtrSub | PtrDiff | Shl | Shr | Sar
    | SCmpLt | UCmpLt | SCmpGt | UCmpGt | SCmpLe | UCmpLe | SCmpGe | UCmpGe | CmpEq | CmpNe
    | BitAnd | BitXor | BitOr | LogicalAnd | LogicalOr | Assign | CommaOp

  /** A `Leaf` is a variable, a literal or any other expression printed as one word.  A `BitCast` is one
      that C's cast operator cannot express. */
  datatype Expr =
    | Leaf(w: string)
    | Undef(t: string)
    | Aggregate(t: string, es: Exprs)
    | Intrinsic(w: string, es: Exprs)
    | IntrinsicCast(w: string, t: string, e: Expr)
    | Access(e: Expr, arrow: bool, f: string)
    | Subscript(e: Expr, i: Expr)
    | Call(fun: Expr, es: Exprs)
    | PostStep(inc: bool, e: Expr)
    | BitCast(t: string, e: Expr)
    | Implicit(e: Expr)
    | Cast(t: string, e: Expr)
    | Prefix(op: PrefixOp, e: Expr)
    | Infix(o: InfixOp, l: Expr, r: Expr)
    | Ternary(c: Expr, a: Expr, b: Expr)

  datatype Exprs = Empty | Item(e: Expr, rest: Exprs)

  function Depth(e: Expr): nat {
    match e
    case Leaf(_) => 0
    case Undef(_) => 0
    case Aggregate(_, es) => 1 + DepthAll(es)
    case Intrinsic(_, es) => 1 + DepthAll(es)
    case IntrinsicCast(_, _, x) => 1 + Depth(x)
    case Access(x, _, _) => 1 + Depth(x)
    case Subscript(x, i) => 1 + Depth(x) + Depth(i)
    case Call(f, es) => 1 + Depth(f) + DepthAll(es)
    case PostStep(_, x) => 1 + Depth(x)
    case BitCast(_, x) => 1 + Depth(x)
    case Implicit(x) => 1 + Depth(x)
    case Cast(_, x) => 1 + Depth(x)
    case Prefix(_, x) => 1 + Depth(x)
    case Infix(_, l, r) => 1 + Depth(l) + Depth(r)
    case Ternary(c, a, b) => 1 + Depth(c) + Depth(a) + Depth(b)
  }

  function DepthAll(es: Exprs): nat {
    match es case Empty => 0 case Item(e, r) => 1 + Depth(e) + DepthAll(r)
  }

  /** Without the implicit casts on top. */
  function Strip(e: Expr): (r: Expr)
    ensures !r.Implicit? && Depth(r) <= Depth(e) && (e.Implicit? ==> Depth(r) < Depth(e))
  {
    if e.Implicit? then Strip(e.e) else e
  }

  // ----- operators and precedences -----

  const ParenthesesLevel: nat := 0
  const CommaLevel: nat := 1
  const AssignmentLevel: nat := 2
  const TernaryLevel: nat := AssignmentLevel
  const PrefixLevel: nat := 13
  const PostfixLevel: nat := 14
  const PrimaryLevel: nat := 15

  function PrefixSym(op: PrefixOp): Sym {
    match op
    case Neg => Minus case BitNot => Tilde case LogicalNot => Exclaim
    case Increment => PlusPlus case Decrement => MinusMinus
    case Addressof => Amp case Indirection => Star
  }

  function InfixSym(o: InfixOp): Sym {
    match o
    case Mul => Star
    case SDiv => Slash case UDiv => Slash
    case SRem => Percent case URem => Percent
    case Add => Plus case PtrAdd => Plus
    case Sub => Minus case PtrSub => Minus case PtrDiff => Minus
    case Shl => LessLess
    case Shr => GreaterGreater case Sar => GreaterGreater
    case SCmpLt => Less case UCmpLt => Less
    case SCmpGt => Greater case UCmpGt => Greater
    case SCmpLe => LessEq case UCmpLe => LessEq
    case SCmpGe => GreaterEq case UCmpGe => GreaterEq
    case CmpEq => EqEq case CmpNe => NotEq
    case BitAnd => Amp case BitXor => Caret case BitOr => Pipe
    case LogicalAnd => AmpAmp case LogicalOr => PipePipe
    case Assign => Eq case CommaOp => Sym.Comma
  }

  function InfixLevel(o: InfixOp): (n: nat)
    ensures 1 <= n <= 12
  {
    match o
    case Mul => 12 case SDiv => 12 case UDiv => 12 case SRem => 12 case URem => 12
    case Add => 11 case Sub => 11 case PtrAdd => 11 case PtrSub => 11 case PtrDiff => 11
    case Shl => 10 case Shr => 10 case Sar => 10
    case SCmpLt => 9 case UCmpLt => 9 case SCmpGt => 9 case UCmpGt => 9
    case SCmpLe => 9 case UCmpLe => 9 case SCmpGe => 9 case UCmpGe => 9
    case CmpEq => 8 case CmpNe => 8
    case BitAnd => 7 case BitXor => 6 case BitOr => 5
    case LogicalAnd => 4 case LogicalOr => 3
    case Assign => AssignmentLevel case CommaOp => CommaLevel
  }

  function Prec(e: Expr): (n: nat)
    ensures 1 <= n <= PrimaryLevel
  {
    match e
    case Access(_, _, _) => PostfixLevel
    case Subscript(_, _) => PostfixLevel
    case Call(_, _) => PostfixLevel
    case PostStep(_, _) => PostfixLevel
    case BitCast(_, _) => PostfixLevel
    case Implicit(x) => Prec(x)
    case Cast(_, _) => PrefixLevel
    case Prefix(_, _) => PrefixLevel
    case Infix(o, _, _) => InfixLevel(o)
    case Ternary(_, _, _) => TernaryLevel
    case _ => PrimaryLevel
  }

  /** Assignment is right-associative. */
  function LeftLevel(o: InfixOp): nat { if o == Assign then AssignmentLevel else InfixLevel(o) - 1 }

  function RightLevel(o: InfixOp): nat { if o == Assign then AssignmentLevel - 1 else InfixLevel(o) }

  predicate NeedsParentheses(e: Expr, cur: nat) { Prec(e) <= cur && Prec(e) != PrimaryLevel }

  /** Minus signs that would be read as one token are kept apart, unless an implicit cast hides them. */
  predicate KeepsApart(op: PrefixOp, e: Expr) {
    op == Neg && e.Prefix? && (e.op == Neg || e.op == Decrement)
  }

  // ----- emitted text -----

  function S(s: Sym): seq<Piece> { [Tok(Token.Sym(s))] }

  function Spaced(s: Sym): seq<Piece> { [Blank] + S(s) + [Blank] }

  function Space(wanted: bool): seq<Piece> { if wanted then [Blank] else [] }

  function W(w: string): seq<Piece> { [Tok(Word(w))] }

  function M(w: string): seq<Piece> { [Tok(Macro(w))] }

  function Ty(t: string): seq<Piece> { [Tok(TypeName(t))] }

  /** The macro of an intrinsic operation. */
  function RuntimeMacro(w: string): string { "rr_" + w }

  /** The text of an expression where the ambient precedence is `cur`. */
  function Text(e: Expr, cur: nat): seq<Piece>
    decreases Depth(e), 1
  {
    if NeedsParentheses(e, cur) then S(LParen) + Body(e) + S(RParen) else Body(e)
  }

  function Body(e: Expr): seq<Piece>
    decreases Depth(e), 0
  {
    match e
    case Leaf(w) => W(w)
    case Undef(t) => M("undef") + S(LParen) + Ty(t) + S(RParen)
    case Aggregate(t, es) => S(LParen) + Ty(t) + S(RParen) + S(LBrace) + ListText(es) + S(RBrace)
    case Intrinsic(w, es) => M(RuntimeMacro(w)) + S(LParen) + ListText(es) + S(RParen)
    case IntrinsicCast(w, t, x) =>
      M(RuntimeMacro(w)) + S(LParen) + Ty(t) + S(Sym.Comma) + Text(x, PrimaryLevel) + S(RParen)
    case Access(x, arrow, f) => Text(x, PostfixLevel - 1) + S(if arrow then Arrow else Dot) + W(f)
    case Subscript(x, i) => Text(x, PostfixLevel - 1) + S(LBracket) + Text(i, CommaLevel) + S(RBracket)
    case Call(f, es) => Text(f, PostfixLevel - 1) + S(LParen) + ListText(es) + S(RParen)
    case PostStep(inc, x) => Text(x, PostfixLevel) + S(if inc then PlusPlus else MinusMinus)
    case BitCast(t, x) =>
      M("bit_cast") + S(LParen) + Ty(t) + S(Sym.Comma) + [Blank] + Text(x, ParenthesesLevel) + S(RParen)
    case Implicit(x) => Text(Strip(x), Prec(e) - 1)
    case Cast(t, x) => S(LParen) + Ty(t) + S(RParen) + [Blank] + Text(x, PrefixLevel - 1)
    case Prefix(op, x) => S(PrefixSym(op)) + Space(KeepsApart(op, x)) + Text(x, PrefixLevel - 1)
    case Infix(o, l, r) =>
      Text(l, LeftLevel(o)) + Space(o != CommaOp) + S(InfixSym(o)) + [Blank] + Text(r, RightLevel(o))
    case Ternary(c, a, b) =>
      Text(c, TernaryLevel) + Spaced(Question) + Text(a, TernaryLevel) + Spaced(Colon) + Text(b, TernaryLevel - 1)
  }

  /** Arguments and initializers are printed at comma precedence. */
  function ListText(es: Exprs): seq<Piece>
    decreases DepthAll(es), 2
  {
    match es
    case Empty => []
    case Item(e, r) => Text(e, CommaLevel) + MoreText(r)
  }

  function MoreText(es: Exprs): seq<Piece>
    decreases DepthAll(es), 2
  {
    match es
    case Empty => []
    case Item(e, r) => S(Sym.Comma) + [Blank] + Text(e, CommaLevel) + MoreText(r)
  }

  // ----- the emitter -----

  lemma Assoc3(o: seq<Piece>, a: seq<Piece>, b: seq<Piece>, c: seq<Piece>)
    ensures o + a + b + c == o + (a + b + c)
  {}

  lemma Assoc4(o: seq<Piece>, a: seq<Piece>, b: seq<Piece>, c: seq<Piece>, d: seq<Piece>)
    ensures o + a + b + c + d == o + (a + b + c + d)
  {}

  lemma Assoc5(o: seq<Piece>, a: seq<Piece>, b: seq<Piece>, c: seq<Piece>, d: seq<Piece>, e: seq<Piece>)
    ensures o + a + b + c + d + e == o + (a + b + c + d + e)
  {}

  function Decrement1(n: nat): nat
    requires n > 0
  {
    n - 1
  }

  /** The emitter keeps the ambient precedence in a field and appends to the token stream. */
  class Emitter {
    var current: nat
    var out: seq<Piece>

    constructor ()
      ensures current == ParenthesesLevel && out == []
    {
      current, out := ParenthesesLevel, [];
    }

    method Put(g: seq<Piece>)
      modifies this`out
      ensures out == old(out) + g
    {
      out := out + g;
    }

    method EmitExpression(e: Expr)
      modifies this
      ensures out == old(out) + Text(e, old(current)) && current == old(current)
      decreases Depth(e), 3
    {
      var previous := current;
      var parentheses := Prec(e) <= current && Prec(e) != PrimaryLevel;
      if parentheses { Put(S(LParen)); }
      current := Prec(e);
      EmitBody(e);
      current := previous;
      if parentheses { Put(S(RParen)); }
    }

    /** Dispatch on the kind of expression. */
    method EmitBody(e: Expr)
      requires current == Prec(e)
      modifies this
      ensures out == old(out) + Body(e)
      decreases Depth(e), 2
    {
      match e
      case Leaf(w) => Put(W(w));
      case Undef(t) => Put(M("undef") + S(LParen) + Ty(t) + S(RParen));
      case Aggregate(_, _) => EmitAggregate(e);
      case Intrinsic(_, _) => EmitIntrinsic(e);
      case IntrinsicCast(_, _, _) => EmitIntrinsicCast(e);
      case Access(_, _, _) => EmitAccess(e);
      case Subscript(_, _) => EmitSubscript(e);
      case Call(_, _) => EmitCall(e);
      case PostStep(_, _) => EmitPostfix(e);
      case BitCast(_, _) => EmitBitCast(e);
      case Implicit(_) => EmitImplicitCast(e);
      case Cast(_, _) => EmitCast(e);
      case Prefix(_, _) => EmitPrefix(e);
      case Infix(_, _, _) => EmitInfix(e);
      case Ternary(_, _, _) => EmitTernary(e);
    }

    method EmitList(es: Exprs)
      modifies this
      requires current == CommaLevel
      ensures out == old(out) + ListText(es) && current == CommaLevel
      decreases DepthAll(es), 4
    {
      if es.Item? {
        EmitExpression(es.e);
        var rest := es.rest;
        while rest.Item?
          invariant current == CommaLevel && DepthAll(rest) < DepthAll(es)
          invariant out + MoreText(rest) == old(out) + ListText(es)
          decreases DepthAll(rest)
        {
          ghost var before := out;
          Put(S(Sym.Comma));
          Put([Blank]);
          EmitExpression(rest.e);
          Assoc4(before, S(Sym.Comma), [Blank], Text(rest.e, CommaLevel), MoreText(rest.rest));
          rest := rest.rest;
        }
      }
    }

    method EmitAggregate(e: Expr)
      requires e.Aggregate?
      modifies this
      ensures out == old(out) + Body(e)
      decreases Depth(e), 1
    {
      Put(S(LParen) + Ty(e.t) + S(RParen));
      current := CommaLevel;
      Put(S(LBrace));
      EmitList(e.es);
      Put(S(RBrace));
      Assoc4(old(out), S(LParen) + Ty(e.t) + S(RParen), S(LBrace), ListText(e.es), S(RBrace));
    }

    method EmitIntrinsic(e: Expr)
      requires e.Intrinsic?
      modifies this
      ensures out == old(out) + Body(e)
      decreases Depth(e), 1
    {
      current := CommaLevel;
      Put(M(RuntimeMacro(e.w)) + S(LParen));
      EmitList(e.es);
      Put(S(RParen));
    }

    method EmitIntrinsicCast(e: Expr)
      requires e.IntrinsicCast? && current == Prec(e)
      modifies this
      ensures out == old(out) + Body(e)
      decreases Depth(e), 1
    {
      Put(M(RuntimeMacro(e.w)) + S(LParen) + Ty(e.t) + S(Sym.Comma));
      EmitExpression(e.e);
      Put(S(RParen));
    }

    method EmitAccess(e: Expr)
      requires e.Access?
      modifies this
      ensures out == old(out) + Body(e)
      decreases Depth(e), 1
    {
      current := Decrement1(PostfixLevel);
      EmitExpression(e.e);
      Put(S(if e.arrow then Arrow else Dot));
      Put(W(e.f));
    }

    method EmitSubscript(e: Expr)
      requires e.Subscript?
      modifies this
      ensures out == old(out) + Body(e)
      decreases Depth(e), 1
    {
      current := Decrement1(PostfixLevel);
      EmitExpression(e.e);
      current := CommaLevel;
      Put(S(LBracket));
      EmitExpression(e.i);
      Put(S(RBracket));
      Assoc4(old(out), Text(e.e, PostfixLevel - 1), S(LBracket), Text(e.i, CommaLevel), S(RBracket));
    }

    method EmitCall(e: Expr)
      requires e.Call?
      modifies this
      ensures out == old(out) + Body(e)
      decreases Depth(e), 1
    {
      current := Decrement1(PostfixLevel);
      EmitExpression(e.fun);
      current := CommaLevel;
      Put(S(LParen));
      EmitList(e.es);
      Put(S(RParen));
      Assoc4(old(out), Text(e.fun, PostfixLevel - 1), S(LParen), ListText(e.es), S(RParen));
    }

    method EmitPostfix(e: Expr)
      requires e.PostStep? && current == Prec(e)
      modifies this
      ensures out == old(out) + Body(e)
      decreases Depth(e), 1
    {
      EmitExpression(e.e);
      current := Decrement1(PostfixLevel);
      Put(S(if e.inc then PlusPlus else MinusMinus));
    }

    method EmitBitCast(e: Expr)
      requires e.BitCast?
      modifies this
      ensures out == old(out) + Body(e)
      decreases Depth(e), 1
    {
      Put(M("bit_cast") + S(LParen) + Ty(e.t) + S(Sym.Comma) + [Blank]);
      current := ParenthesesLevel;
      EmitExpression(e.e);
      Put(S(RParen));
      Assoc3(old(out), M("bit_cast") + S(LParen) + Ty(e.t) + S(Sym.Comma) + [Blank], Text(e.e, ParenthesesLevel),
          S(RParen));
    }

    method EmitCast(e: Expr)
      requires e.Cast?
      modifies this
      ensures out == old(out) + Body(e)
      decreases Depth(e), 1
    {
      Put(S(LParen) + Ty(e.t) + S(RParen) + [Blank]);
      current := Decrement1(PrefixLevel);
      EmitExpression(e.e);
    }

    method EmitImplicitCast(e: Expr)
      requires e.Implicit? && current == Prec(e)
      modifies this
      ensures out == old(out) + Body(e)
      decreases Depth(e), 1
    {
      var v := e.e;
      while v.Implicit?
        invariant Strip(v) == Strip(e.e) && Depth(v) < Depth(e)
        decreases Depth(v)
      {
        v := v.e;
      }
      current := Decrement1(current);
      EmitExpression(v);
    }

    method EmitPrefix(e: Expr)
      requires e.Prefix?
      modifies this
      ensures out == old(out) + Body(e)
      decreases Depth(e), 1
    {
      Put(S(PrefixSym(e.op)));
      Put(Space(e.op == Neg && e.e.Prefix? && (e.e.op == Neg || e.e.op == Decrement)));
      current := Decrement1(PrefixLevel);
      EmitExpression(e.e);
      Assoc3(old(out), S(PrefixSym(e.op)), Space(KeepsApart(e.op, e.e)), Text(e.e, PrefixLevel - 1));
    }

    method EmitInfix(e: Expr)
      requires e.Infix? && current == Prec(e)
      modifies this
      ensures out == old(out) + Body(e)
      decreases Depth(e), 1
    {
      var lhs, rhs := Decrement1(current), current;
      if current == AssignmentLevel { lhs, rhs := rhs, lhs; }
      current := lhs;
      EmitExpression(e.l);
      Put(Space(e.o != CommaOp));
      Put(S(InfixSym(e.o)));
      Put([Blank]);
      current := rhs;
      EmitExpression(e.r);
      Assoc5(old(out), Text(e.l, LeftLevel(e.o)), Space(e.o != CommaOp), S(InfixSym(e.o)), [Blank],
          Text(e.r, RightLevel(e.o)));
    }

    method EmitTernary(e: Expr)
      requires e.Ternary? && current == Prec(e)
      modifies this
      ensures out == old(out) + Body(e)
      decreases Depth(e), 1
    {
      EmitExpression(e.c);
      Put(Spaced(Question));
      EmitExpression(e.a);
      Put(Spaced(Colon));
      current := Decrement1(TernaryLevel);
      EmitExpression(e.b);
      Assoc5(old(out), Text(e.c, TernaryLevel), Spaced(Question), Text(e.a, TernaryLevel), Spaced(Colon),
          Text(e.b, TernaryLevel - 1));
    }
  }
}
