/** A parser for C expressions, one function per nonterminal of section 6.5 of ISO/IEC 9899:2011.

    Left-recursive productions are read by the `Loop` functions.  Levels number the nonterminals from
    expression (1) over assignment-expression (2), logical-OR-expression (3) to
    multiplicative-expression (12).

    Macros are read as the preprocessor leaves them: `bit_cast` takes all tokens after its first comma as one
    expression, all others have as many arguments as there are commas outside of parentheses, and one more
    (section 6.10.3 of ISO/IEC 9899:2011). */
module CParser {
  import opened Wrappers
  import opened CTokens

  /** Syntax trees; parentheses leave no node. */
  datatype CExpr =
    | Name(w: string)
    | MacroUse(w: string, args: CArgs)
    | TypeArg(t: string)
    | Compound(t: string, inits: CArgs)
    | Member(e: CExpr, arrow: bool, f: string)
    | Index(e: CExpr, i: CExpr)
    | CallOf(fun: CExpr, args: CArgs)
    | Post(op: Sym, e: CExpr)
    | Pre(op: Sym, e: CExpr)
    | CastTo(t: string, e: CExpr)
    | Bin(op: Sym, l: CExpr, r: CExpr)
    | Choice(c: CExpr, a: CExpr, b: CExpr)

  datatype CArgs = NoArgs | Args(e: CExpr, rest: CArgs)

  datatype Out = Fail | Done(e: CExpr, rest: Toks)
  datatype OutArgs = FailArgs | DoneArgs(args: CArgs, rest: Toks)

  function Size(s: Toks): nat { match s case End => 0 case T(_, r) => 1 + Size(r) }

  predicate Starts(s: Toks, x: Sym) { s.T? && s.hd == Sym(x) }

  /** The level of a binary operator; 0 for all other tokens. */
  function Level(t: Token): nat {
    match t
    case Sym(Comma) => 1
    case Sym(PipePipe) => 3
    case Sym(AmpAmp) => 4
    case Sym(Pipe) => 5
    case Sym(Caret) => 6
    case Sym(Amp) => 7
    case Sym(EqEq) => 8
    case Sym(NotEq) => 8
    case Sym(Less) => 9
    case Sym(Greater) => 9
    case Sym(LessEq) => 9
    case Sym(GreaterEq) => 9
    case Sym(LessLess) => 10
    case Sym(GreaterGreater) => 10
    case Sym(Plus) => 11
    case Sym(Minus) => 11
    case Sym(Star) => 12
    case Sym(Slash) => 12
    case Sym(Percent) => 12
    case _ => 0
  }

  predicate UnaryOperator(t: Token) {
    t == Sym(Amp) || t == Sym(Star) || t == Sym(Plus) || t == Sym(Minus) || t == Sym(Tilde) || t == Sym(Exclaim)
  }

  /** expression, logical-OR-expression, …, multiplicative-expression */
  function Binary(m: nat, s: Toks): (r: Out)
    requires m == 1 || 3 <= m <= 12
    ensures r.Done? ==> Size(r.rest) < Size(s)
    decreases Size(s), 20 - m, 1
  {
    var x := Operand(m, s);
    if x.Done? then Loop(m, x.e, x.rest) else Fail
  }

  /** The operands of the operators of a level. */
  function Operand(m: nat, s: Toks): (r: Out)
    requires m == 1 || 3 <= m <= 12
    ensures r.Done? ==> Size(r.rest) < Size(s)
    decreases Size(s), 20 - m, 0
  {
    if m == 1 then Assignment(s) else if m == 12 then CastExpr(s) else Binary(m + 1, s)
  }

  function Loop(m: nat, e: CExpr, s: Toks): (r: Out)
    requires m == 1 || 3 <= m <= 12
    ensures r.Done? ==> Size(r.rest) <= Size(s)
    decreases Size(s), 20 - m, 0
  {
    if s.T? && Level(s.hd) == m then
      var x := Operand(m, s.tl);
      if x.Done? then Loop(m, Bin(s.hd.s, e, x.e), x.rest) else Fail
    else Done(e, s)
  }

  /** assignment-expression: unary-expression = assignment-expression, or conditional-expression */
  function Assignment(s: Toks): (r: Out)
    ensures r.Done? ==> Size(r.rest) < Size(s)
    decreases Size(s), 18, 2
  {
    var u := Unary(s);
    if u.Done? && Starts(u.rest, Eq) then
      var v := Assignment(u.rest.tl);
      if v.Done? then Done(Bin(Eq, u.e, v.e), v.rest) else Fail
    else Conditional(s)
  }

  function Conditional(s: Toks): (r: Out)
    ensures r.Done? ==> Size(r.rest) < Size(s)
    decreases Size(s), 18, 1
  {
    var c := Binary(3, s);
    if c.Done? && Starts(c.rest, Question) then
      var a := Binary(1, c.rest.tl);
      if a.Done? && Starts(a.rest, Colon) then
        var b := Conditional(a.rest.tl);
        if b.Done? then Done(Choice(c.e, a.e, b.e), b.rest) else Fail
      else Fail
    else c
  }

  /** A parenthesized type name that does not begin a compound literal. */
  predicate StartsCast(s: Toks) {
    Starts(s, LParen) && s.tl.T? && s.tl.hd.TypeName? && Starts(s.tl.tl, RParen) && !Starts(s.tl.tl.tl, LBrace)
  }

  function CastExpr(s: Toks): (r: Out)
    ensures r.Done? ==> Size(r.rest) < Size(s)
    decreases Size(s), 7, 0
  {
    if StartsCast(s) then
      assert Size(s.tl) > Size(s.tl.tl) > Size(s.tl.tl.tl);
      var x := CastExpr(s.tl.tl.tl);
      if x.Done? then Done(CastTo(s.tl.hd.t, x.e), x.rest) else Fail
    else Unary(s)
  }

  function Unary(s: Toks): (r: Out)
    ensures r.Done? ==> Size(r.rest) < Size(s)
    decreases Size(s), 6, 0
  {
    if Starts(s, PlusPlus) || Starts(s, MinusMinus) then
      var x := Unary(s.tl);
      if x.Done? then Done(Pre(s.hd.s, x.e), x.rest) else Fail
    else if s.T? && UnaryOperator(s.hd) then
      var x := CastExpr(s.tl);
      if x.Done? then Done(Pre(s.hd.s, x.e), x.rest) else Fail
    else Postfix(s)
  }

  function Postfix(s: Toks): (r: Out)
    ensures r.Done? ==> Size(r.rest) < Size(s)
    decreases Size(s), 5, 0
  {
    var x := Primary(s);
    if x.Done? then PostLoop(x.e, x.rest) else Fail
  }

  function PostLoop(e: CExpr, s: Toks): (r: Out)
    ensures r.Done? ==> Size(r.rest) <= Size(s)
    decreases Size(s), 0, 0
  {
    if Starts(s, LBracket) then
      var i := Binary(1, s.tl);
      if i.Done? && Starts(i.rest, RBracket) then PostLoop(Index(e, i.e), i.rest.tl) else Fail
    else if Starts(s, LParen) then
      var a := ArgList(RParen, false, s.tl);
      if a.DoneArgs? then PostLoop(CallOf(e, a.args), a.rest) else Fail
    else if Starts(s, Dot) || Starts(s, Arrow) then
      if s.tl.T? && s.tl.hd.Word? then PostLoop(Member(e, s.hd == Sym(Arrow), s.tl.hd.w), s.tl.tl) else Fail
    else if Starts(s, PlusPlus) || Starts(s, MinusMinus) then PostLoop(Post(s.hd.s, e), s.tl)
    else Done(e, s)
  }

  /** primary-expression, compound literal or macro invocation */
  function Primary(s: Toks): (r: Out)
    ensures r.Done? ==> Size(r.rest) < Size(s)
    decreases Size(s), 4, 0
  {
    if s.End? then Fail
    else
      match s.hd
      case Word(w) => Done(Name(w), s.tl)
      case Macro(w) =>
        if Starts(s.tl, LParen) then
          assert Size(s.tl) > Size(s.tl.tl);
          if w == "bit_cast" then BitCastCall(s.tl.tl)
          else
            var a := ArgList(RParen, true, s.tl.tl);
            if a.DoneArgs? && Commas(s.tl.tl, 0) == Separators(a.args) then Done(MacroUse(w, a.args), a.rest) else Fail
        else Fail
      case TypeName(_) => Fail
      case Keyword(_) => Fail
      case Number(_) => Fail
      case Sym(x) =>
        if x != LParen then Fail
        else if s.tl.T? && s.tl.hd.TypeName? then
          if Starts(s.tl.tl, RParen) && Starts(s.tl.tl.tl, LBrace) && !Starts(s.tl.tl.tl.tl, RBrace) then
            assert Size(s.tl) > Size(s.tl.tl) > Size(s.tl.tl.tl) > Size(s.tl.tl.tl.tl);
            var a := ArgList(RBrace, false, s.tl.tl.tl.tl);
            if a.DoneArgs? then Done(Compound(s.tl.hd.t, a.args), a.rest) else Fail
          else Fail
        else
          var e := Binary(1, s.tl);
          if e.Done? && Starts(e.rest, RParen) then Done(e.e, e.rest.tl) else Fail
  }

  /** The commas outside of parentheses up to the parenthesis that closes the invocation; `depth` counts the
      open ones. */
  function Commas(s: Toks, depth: nat): nat {
    if s.End? then 0
    else if s.hd == Sym(LParen) then Commas(s.tl, depth + 1)
    else if s.hd == Sym(RParen) then if depth == 0 then 0 else Commas(s.tl, depth - 1)
    else (if s.hd == Sym(Comma) && depth == 0 then 1 else 0) + Commas(s.tl, depth)
  }

  function Separators(args: CArgs): nat { if args.NoArgs? || args.rest.NoArgs? then 0 else 1 + Separators(args.rest) }

  /** `bit_cast` is variadic. */
  function BitCastCall(s: Toks): (r: Out)
    ensures r.Done? ==> Size(r.rest) < Size(s)
    decreases Size(s), 0, 0
  {
    if s.T? && s.hd.TypeName? && Starts(s.tl, Comma) then
      assert Size(s) > Size(s.tl) > Size(s.tl.tl);
      var e := Binary(1, s.tl.tl);
      if e.Done? && Starts(e.rest, RParen) then Done(BitCastOf(s.hd.t, e.e), e.rest.tl) else Fail
    else Fail
  }

  function BitCastOf(t: string, e: CExpr): CExpr { MacroUse("bit_cast", Args(TypeArg(t), Args(e, NoArgs))) }

  /** A possibly empty list of arguments up to the closing token; only macros take type names. */
  function ArgList(close: Sym, types: bool, s: Toks): (r: OutArgs)
    ensures r.DoneArgs? ==> Size(r.rest) < Size(s)
    decreases Size(s), 19, 1
  {
    if Starts(s, close) then DoneArgs(NoArgs, s.tl) else ArgMore(close, types, s)
  }

  function ArgMore(close: Sym, types: bool, s: Toks): (r: OutArgs)
    ensures r.DoneArgs? ==> Size(r.rest) < Size(s)
    decreases Size(s), 19, 0
  {
    var x := if types && s.T? && s.hd.TypeName? then Done(TypeArg(s.hd.t), s.tl) else Assignment(s);
    if x.Fail? then FailArgs
    else if Starts(x.rest, close) then DoneArgs(Args(x.e, NoArgs), x.rest.tl)
    else if Starts(x.rest, Comma) then
      var r := ArgMore(close, types, x.rest.tl);
      if r.DoneArgs? then DoneArgs(Args(x.e, r.args), r.rest) else FailArgs
    else FailArgs
  }

  /** The whole input is one expression. */
  function Parse(s: Toks): Option<CExpr> {
    var x := Binary(1, s);
    if x.Done? && x.rest.End? then Some(x.e) else None
  }
}
