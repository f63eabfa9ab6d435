/** Declarators of C and a parser for them (section 6.7.6 of ISO/IEC 9899:2011). */
module CDeclarators {
  import opened Wrappers
  import opened CTokens

  // ----- types and declarators -----

  datatype CType =
    | CNamed(w: string, const_: bool)
    | CForeign(m: string, to: CType, const_: bool)
    | CPtr(to: CType, const_: bool)
    | CArr(elem: CType, n: nat)
    | CFun(ret: CType, ps: CParams)

  datatype CParams = NoParams | Param(name: Option<string>, t: CType, rest: CParams)

  /** A declarator; the name is missing in abstract ones. */
  datatype Decl =
      | Id(name: Option<string>) | PtrTo(const_: bool, d: Decl) | ArrOf(d: Decl, n: nat) | FunOf(d: Decl, ps: CParams)

  /** The type that a declarator gives to its name, from the type of the specifiers. */
  function Wrap(d: Decl, t: CType): CType {
    match d
    case Id(_) => t
    case PtrTo(c, e) => Wrap(e, CPtr(t, c))
    case ArrOf(e, n) => Wrap(e, CArr(t, n))
    case FunOf(e, ps) => Wrap(e, CFun(t, ps))
  }

  function NameOf(d: Decl): Option<string> {
    if d.Id? then d.name else NameOf(d.d)
  }

  // ----- parser -----

  datatype OutSpec = NoSpec | Spec(t: CType, rest: Toks)
  datatype OutDecl = NoDecl | Declared(d: Decl, rest: Toks)
  datatype OutParams = BadParams | Params(ps: CParams, rest: Toks)

  function Size(s: Toks): nat { match s case End => 0 case T(_, r) => 1 + Size(r) }

  predicate Starts(s: Toks, x: Sym) { s.T? && s.hd == Token.Sym(x) }

  predicate StartsConst(s: Toks) { s.T? && s.hd == Keyword("const") }

  /** A parenthesis that groups a declarator, not one that begins a parameter list. */
  predicate StartsGroup(s: Toks) {
    Starts(s, LParen) && (Starts(s.tl, Star) || Starts(s.tl, LParen) || Starts(s.tl, LBracket)
        || (s.tl.T? && s.tl.hd.Word?))
  }

  /** Specifiers: an optional qualifier and a type name or a pointer macro applied to a type. */
  function Specifiers(s: Toks): (r: OutSpec)
    ensures r.Spec? ==> Size(r.rest) < Size(s)
    decreases Size(s), 4
  {
    if StartsConst(s) then Unqualified(true, s.tl) else Unqualified(false, s)
  }

  function Unqualified(c: bool, s: Toks): (r: OutSpec)
    ensures r.Spec? ==> Size(r.rest) < Size(s)
    decreases Size(s), 3
  {
    if s.T? && s.hd.TypeName? then Spec(CNamed(s.hd.t, c), s.tl)
    else if s.T? && s.hd.Macro? && Starts(s.tl, LParen) then
      assert Size(s.tl.tl) < Size(s.tl);
      var b := Specifiers(s.tl.tl);
      if b.NoSpec? then NoSpec
      else
        var d := Declarator(b.rest);
        if d.Declared? && Starts(d.rest, RParen) then Spec(CForeign(s.hd.w, Wrap(d.d, b.t), c), d.rest.tl) else NoSpec
    else NoSpec
  }

  function Declarator(s: Toks): (r: OutDecl)
    ensures r.Declared? ==> Size(r.rest) <= Size(s)
    decreases Size(s), 3
  {
    if Starts(s, Star) then
      var c := StartsConst(s.tl);
      assert c ==> Size(s.tl.tl) < Size(s.tl);
      var x := Declarator(if c then s.tl.tl else s.tl);
      if x.Declared? then Declared(PtrTo(c, x.d), x.rest) else NoDecl
    else Direct(s)
  }

  function Direct(s: Toks): (r: OutDecl)
    ensures r.Declared? ==> Size(r.rest) <= Size(s)
    decreases Size(s), 2
  {
    if s.T? && s.hd.Word? then Suffix(Id(Some(s.hd.w)), s.tl)
    else if StartsGroup(s) then
      var x := Declarator(s.tl);
      if x.Declared? && Starts(x.rest, RParen) then Suffix(x.d, x.rest.tl) else NoDecl
    else Suffix(Id(None), s)
  }

  function Suffix(d: Decl, s: Toks): (r: OutDecl)
    ensures r.Declared? ==> Size(r.rest) <= Size(s)
    decreases Size(s), 1
  {
    if Starts(s, LBracket) then
      if s.tl.T? && s.tl.hd.Number? && Starts(s.tl.tl, RBracket) then
        assert Size(s.tl.tl.tl) < Size(s.tl.tl) < Size(s.tl);
        Suffix(ArrOf(d, s.tl.hd.n), s.tl.tl.tl)
      else NoDecl
    else if Starts(s, LParen) then
      var p := ParameterList(s.tl);
      if p.Params? then Suffix(FunOf(d, p.ps), p.rest) else NoDecl
    else Declared(d, s)
  }

  function ParameterList(s: Toks): (r: OutParams)
    ensures r.Params? ==> Size(r.rest) < Size(s)
    decreases Size(s), 6
  {
    if s.T? && s.hd == Keyword("void") && Starts(s.tl, RParen) then
      assert Size(s.tl.tl) < Size(s.tl);
      Params(NoParams, s.tl.tl)
    else Parameters(s)
  }

  function Parameters(s: Toks): (r: OutParams)
    ensures r.Params? ==> Size(r.rest) < Size(s)
    decreases Size(s), 5
  {
    var b := Specifiers(s);
    if b.NoSpec? then BadParams
    else
      var x := Declarator(b.rest);
      if x.NoDecl? then BadParams
      else if Starts(x.rest, RParen) then Params(Param(NameOf(x.d), Wrap(x.d, b.t), NoParams), x.rest.tl)
      else if Starts(x.rest, Sym.Comma) then
        var r := Parameters(x.rest.tl);
        if r.Params? then Params(Param(NameOf(x.d), Wrap(x.d, b.t), r.ps), r.rest) else BadParams
      else BadParams
  }

  /** The name and type that the whole input declares. */
  function ParseDeclaration(s: Toks): Option<(Option<string>, CType)> {
    var b := Specifiers(s);
    if b.NoSpec? then None
    else
      var x := Declarator(b.rest);
      if x.Declared? && x.rest.End? then Some((NameOf(x.d), Wrap(x.d, b.t))) else None
  }

  // ----- tokens of a type -----

  function SizeOf(t: CType): nat {
    match t
    case CNamed(_, _) => 1
    case CForeign(_, to, _) => 1 + SizeOf(to)
    case CPtr(to, _) => 1 + SizeOf(to)
    case CArr(e, _) => 1 + SizeOf(e)
    case CFun(r, ps) => 1 + SizeOf(r) + SizeOfAll(ps)
  }

  function SizeOfAll(ps: CParams): nat {
    match ps case NoParams => 0 case Param(_, t, r) => 1 + SizeOf(t) + SizeOfAll(r)
  }

  function SizeOfDecl(d: Decl): nat {
    match d
    case Id(_) => 0
    case PtrTo(_, e) => 1 + SizeOfDecl(e)
    case ArrOf(e, _) => 1 + SizeOfDecl(e)
    case FunOf(e, ps) => 1 + SizeOfDecl(e) + SizeOfAll(ps)
  }

  predicate Terminal(t: CType) { t.CNamed? || t.CForeign? }

  /** The type of the specifiers in a declaration of type `t`. */
  function Base(t: CType): (b: CType)
    ensures Terminal(b)
  {
    match t
    case CPtr(to, _) => Base(to)
    case CArr(e, _) => Base(e)
    case CFun(r, _) => Base(r)
    case _ => t
  }

  /** The declarator of type `t` around declarator `d`. */
  function DeclOf(t: CType, d: Decl): (r: Decl)
    ensures SizeOfDecl(r) + SizeOf(Base(t)) == SizeOf(t) + SizeOfDecl(d)
  {
    match t
    case CPtr(to, c) => DeclOf(to, PtrTo(c, d))
    case CArr(e, n) => DeclOf(e, ArrOf(d, n))
    case CFun(r, ps) => DeclOf(r, FunOf(d, ps))
    case _ => d
  }

  lemma {:induction false} WrapDeclOf(t: CType, d: Decl)
    ensures Wrap(DeclOf(t, d), Base(t)) == Wrap(d, t) && NameOf(DeclOf(t, d)) == NameOf(d)
  {
    match t
    case CPtr(to, c) => WrapDeclOf(to, PtrTo(c, d));
    case CArr(e, n) => WrapDeclOf(e, ArrOf(d, n));
    case CFun(r, ps) => WrapDeclOf(r, FunOf(d, ps));
    case _ =>
  }

  function X(s: Sym, k: Toks): Toks { T(Token.Sym(s), k) }

  function ConstTokens(c: bool, k: Toks): Toks { if c then T(Keyword("const"), k) else k }

  predicate Grouped(d: Decl) { d.PtrTo? || d.FunOf? }

  function TypeTokens(t: CType, name: Option<string>, k: Toks): Toks
    decreases SizeOf(t), 2
  {
    SpecTokens(Base(t), DeclTokens(DeclOf(t, Id(name)), k))
  }

  function SpecTokens(t: CType, k: Toks): Toks
    requires Terminal(t)
    decreases SizeOf(t), 1
  {
    match t
    case CNamed(w, c) => ConstTokens(c, T(TypeName(w), k))
    case CForeign(m, to, c) => ConstTokens(c, T(Macro(m), X(LParen, TypeTokens(to, None, X(RParen, k)))))
  }

  function DeclTokens(d: Decl, k: Toks): Toks
    decreases SizeOfDecl(d), 1
  {
    match d
    case Id(name) => if name.Some? then T(Word(name.value), k) else k
    case PtrTo(c, e) => X(Star, ConstTokens(c, DeclTokens(e, k)))
    case ArrOf(e, n) =>
      var r := X(LBracket, T(Number(n), X(RBracket, k)));
      if Grouped(e) then X(LParen, DeclTokens(e, X(RParen, r))) else DeclTokens(e, r)
    case FunOf(e, ps) =>
      var r := X(LParen, ParamTokens(ps, X(RParen, k)));
      if !e.Id? then X(LParen, DeclTokens(e, X(RParen, r))) else DeclTokens(e, r)
  }

  function ParamTokens(ps: CParams, k: Toks): Toks
    decreases SizeOfAll(ps), 3
  {
    if ps.NoParams? then T(Keyword("void"), k) else MoreParams(ps, k)
  }

  function MoreParams(ps: CParams, k: Toks): Toks
    requires ps.Param?
    decreases SizeOfAll(ps), 2
  {
    TypeTokens(ps.t, ps.name, if ps.rest.NoParams? then k else X(Sym.Comma, MoreParams(ps.rest, k)))
  }

  // ----- reading back -----

  /** What may follow a declarator, or stand in it behind the name. */
  predicate After(k: Toks) {
    k.T? ==> !k.hd.Word? && !StartsConst(k) && !StartsGroup(k) && !Starts(k, Star)
  }

  /** What may follow a complete declarator. */
  predicate Ends(k: Toks) { After(k) && !Starts(k, LParen) && !Starts(k, LBracket) }

  lemma {:induction false} HeadOfType(t: CType, name: Option<string>, k: Toks)
    ensures var s := TypeTokens(t, name, k);
            s.T? && (s.hd.TypeName? || s.hd.Macro? || s.hd == Keyword("const"))
  {}

  lemma ParamsAfter(ps: CParams, k: Toks)
    ensures After(X(LParen, ParamTokens(ps, k)))
  {
    if ps.Param? { HeadOfType(ps.t, ps.name, if ps.rest.NoParams? then k else X(Sym.Comma, MoreParams(ps.rest, k))); }
  }

  /** A declarator that is not a pointer is read up to its suffixes. */
  lemma {:induction false} ReadDirect(d: Decl, k: Toks)
    requires !d.PtrTo? && After(k)
    ensures Direct(DeclTokens(d, k)) == Suffix(d, k) && !Starts(DeclTokens(d, k), Star)
    decreases SizeOfDecl(d), 2
  {
    match d
    case Id(_) =>
    case ArrOf(e, n) =>
      var r := X(LBracket, T(Number(n), X(RBracket, k)));
      if Grouped(e) { ReadGroup(e, r); } else { ReadDirect(e, r); }
      assert Suffix(e, r) == Suffix(d, k);
    case FunOf(e, ps) =>
      var r := X(LParen, ParamTokens(ps, X(RParen, k)));
      ParamsAfter(ps, X(RParen, k));
      if !e.Id? { ReadGroup(e, r); } else { ReadDirect(e, r); }
      ReadParams(ps, k);
      assert Suffix(e, r) == Suffix(d, k);
  }

  lemma {:induction false} ReadGroup(e: Decl, r: Toks)
    requires !e.Id? && After(r)
    ensures Direct(X(LParen, DeclTokens(e, X(RParen, r)))) == Suffix(e, r)
    decreases SizeOfDecl(e), 4
  {
    ReadDeclarator(e, X(RParen, r));
    GroupHead(e, X(RParen, r));
  }

  lemma {:induction false} GroupHead(e: Decl, k: Toks)
    requires !e.Id?
    ensures StartsGroup(X(LParen, DeclTokens(e, k)))
    decreases SizeOfDecl(e)
  {
    match e
    case PtrTo(_, _) =>
    case ArrOf(d, n) => if !Grouped(d) && !d.Id? { GroupHead(d, X(LBracket, T(Number(n), X(RBracket, k)))); }
    case FunOf(_, _) =>
  }

  lemma {:induction false} ReadDeclarator(d: Decl, k: Toks)
    requires Ends(k)
    ensures Declarator(DeclTokens(d, k)) == Declared(d, k)
    decreases SizeOfDecl(d), 3
  {
    if d.PtrTo? {
      ReadDeclarator(d.d, k);
      NoConst(d.d, k);
    } else {
      ReadDirect(d, k);
    }
  }

  lemma {:induction false} NoConst(d: Decl, k: Toks)
    requires After(k)
    ensures !StartsConst(DeclTokens(d, k))
    decreases SizeOfDecl(d)
  {
    match d
    case ArrOf(e, n) => if !Grouped(e) { NoConst(e, X(LBracket, T(Number(n), X(RBracket, k)))); }
    case FunOf(e, ps) =>
      ParamsAfter(ps, X(RParen, k));
      if e.Id? { NoConst(e, X(LParen, ParamTokens(ps, X(RParen, k)))); }
    case _ =>
  }

  lemma {:induction false} ReadParams(ps: CParams, k: Toks)
    ensures ParameterList(ParamTokens(ps, X(RParen, k))) == Params(ps, k)
    decreases SizeOfAll(ps), 6
  {
    if ps.Param? {
      HeadOfType(ps.t, ps.name, if ps.rest.NoParams? then X(RParen, k)
          else X(Sym.Comma, MoreParams(ps.rest, X(RParen, k))));
      ReadMoreParams(ps, k);
    }
  }

  lemma {:induction false} ReadMoreParams(ps: CParams, k: Toks)
    requires ps.Param?
    ensures Parameters(MoreParams(ps, X(RParen, k))) == Params(ps, k)
    decreases SizeOfAll(ps), 5
  {
    var r := if ps.rest.NoParams? then X(RParen, k) else X(Sym.Comma, MoreParams(ps.rest, X(RParen, k)));
    ReadType(ps.t, ps.name, r);
    if ps.rest.Param? { ReadMoreParams(ps.rest, k); }
  }

  lemma {:induction false} ReadSpec(t: CType, k: Toks)
    requires Terminal(t)
    ensures Specifiers(SpecTokens(t, k)) == Spec(t, k)
    decreases SizeOf(t), 4
  {
    if t.CForeign? { ReadType(t.to, None, X(RParen, k)); }
  }

  /** Specifiers and declarator are read as they were printed. */
  lemma {:induction false} ReadType(t: CType, name: Option<string>, k: Toks)
    requires Ends(k)
    ensures var d := DeclOf(t, Id(name));
            && Specifiers(TypeTokens(t, name, k)) == Spec(Base(t), DeclTokens(d, k))
            && Declarator(DeclTokens(d, k)) == Declared(d, k)
            && Wrap(d, Base(t)) == t && NameOf(d) == name
    decreases SizeOf(t), 5
  {
    var d := DeclOf(t, Id(name));
    WrapDeclOf(t, Id(name));
    ReadSpec(Base(t), DeclTokens(d, k));
    ReadDeclarator(d, k);
  }

  /** The tokens of a declaration declare exactly its name and type. */
  lemma DeclarationRead(t: CType, name: Option<string>)
    ensures ParseDeclaration(TypeTokens(t, name, End)) == Some((name, t))
  {
    ReadType(t, name, End);
  }
}
