/** Printing declarations of Clift types inside out, with an explicit stack. */
module CDeclEmitter {
  import opened Wrappers
  import opened CTokens
  import opened CDeclarators

  // ----- types -----

  /** `Named` is a primitive type, struct, union, enum or typedef. */
  datatype Type =
    | Named(w: string, const_: bool)
    | Function(w: string, const_: bool, ret: Type, args: Types)
    | Pointer(size: nat, to: Type, const_: bool)
    | Array(elem: Type, n: nat)

  datatype Types = NoTypes | AndType(t: Type, rest: Types)

  /** The declared name, whether a function is declared, and the names of its parameters. */
  datatype Info = Info(name: string, isFunction: bool, params: Option<seq<string>>)

  function Digits(n: nat): string {
    if n < 10 then ["0123456789"[n]] else Digits(n / 10) + ["0123456789"[n % 10]]
  }

  function ForeignMacro(size: nat): string { "pointer" + Digits(size * 8) + "_t" }

  function DigitValue(c: char): nat {
    match c
    case '0' => 0 case '1' => 1 case '2' => 2 case '3' => 3 case '4' => 4
    case '5' => 5 case '6' => 6 case '7' => 7 case '8' => 8 case _ => 9
  }

  function NumberOf(s: string): nat { if s == "" then 0 else 10 * NumberOf(s[..|s| - 1]) + DigitValue(s[|s| - 1]) }

  lemma {:induction false} DigitsRead(n: nat)
    ensures NumberOf(Digits(n)) == n
  {
    var d := ["0123456789"[n % 10]];
    assert DigitValue(d[0]) == n % 10;
    if n >= 10 {
      DigitsRead(n / 10);
      assert Digits(n)[..|Digits(n)| - 1] == Digits(n / 10);
    } else {
      assert Digits(n)[..0] == "";
    }
  }

  /** The macro of a foreign pointer tells its size. */
  lemma ForeignMacroSize(a: nat, b: nat)
    requires ForeignMacro(a) == ForeignMacro(b)
    ensures a == b
  {
    var x, y := ForeignMacro(a), ForeignMacro(b);
    assert x[7..|x| - 2] == Digits(a * 8) && y[7..|y| - 2] == Digits(b * 8);
    DigitsRead(a * 8);
    DigitsRead(b * 8);
  }

  function Count(ts: Types): nat { match ts case NoTypes => 0 case AndType(_, r) => 1 + Count(r) }

  function ParamName(params: Option<seq<string>>, j: nat): Option<string> {
    if params.Some? && j < |params.value| then Some(params.value[j]) else None
  }

  function TypeSize(t: Type): nat {
    match t
    case Named(_, _) => 1
    case Function(_, _, r, args) => 1 + TypeSize(r) + TypesSize(args)
    case Pointer(_, to, _) => 1 + TypeSize(to)
    case Array(e, _) => 1 + TypeSize(e)
  }

  function TypesSize(ts: Types): nat {
    match ts case NoTypes => 0 case AndType(t, r) => 1 + TypeSize(t) + TypesSize(r)
  }

  /** The C type that a declaration of `t` states; only the function type `outer` is written out, every
      other one is named. */
  function ToC(native: nat, t: Type, outer: Option<Type>, params: Option<seq<string>>): CType
    decreases TypeSize(t)
  {
    match t
    case Named(w, c) => CNamed(w, c)
    case Pointer(size, to, c) =>
      if size == native then CPtr(ToC(native, to, outer, params), c)
      else CForeign(ForeignMacro(size), ToC(native, to, None, None), c)
    case Array(e, n) => CArr(ToC(native, e, outer, params), n)
    case Function(w, c, r, args) =>
      if outer == Some(t) then CFun(ToC(native, r, outer, params), ParamsToC(native, args, params, 0)) else CNamed(w, c)
  }

  function ParamsToC(native: nat, ts: Types, params: Option<seq<string>>, j: nat): CParams
    decreases TypesSize(ts)
  {
    match ts
    case NoTypes => NoParams
    case AndType(t, r) => Param(ParamName(params, j), ToC(native, t, None, None), ParamsToC(native, r, params, j + 1))
  }

  // ----- tokens of emitted pieces -----

  /** The tokens of a sequence of pieces, followed by `k`. */
  function Read(ps: seq<Piece>, k: Toks): Toks {
    if ps == [] then k else ReadPiece(ps[0], Read(ps[1..], k))
  }

  lemma {:induction false} ReadApp(x: seq<Piece>, y: seq<Piece>, k: Toks)
    ensures Read(x + y, k) == Read(x, Read(y, k))
  {
    if x == [] {
      assert x + y == y;
    } else {
      assert (x + y)[0] == x[0] && (x + y)[1..] == x[1..] + y;
      ReadApp(x[1..], y, k);
    }
  }

  /** The only punctuators in declarations; none of them merges with a neighbour. */
  predicate Harmless(p: Piece) {
    p.Tok? && p.t.Sym? ==> p.t.s in {LParen, RParen, LBracket, RBracket, Sym.Comma, Star}
  }

  predicate IsWord(p: Piece) { p.Tok? && !p.t.Sym? }

  predicate EndsWord(ps: seq<Piece>) { ps != [] && IsWord(ps[|ps| - 1]) }

  /** Words are kept apart. */
  predicate Neat(ps: seq<Piece>) {
    && (forall i :: 0 <= i < |ps| ==> Harmless(ps[i]))
    && forall i :: 0 < i < |ps| ==> !(IsWord(ps[i - 1]) && IsWord(ps[i]))
  }

  lemma {:induction false} LexRead(ps: seq<Piece>)
    requires Neat(ps)
    ensures Lex(Glyphs(ps)) == Read(ps, End) && CharAt(Glyphs(ps), 0) != '='
  {
    if ps != [] {
      var p, r := ps[0], ps[1..];
      assert forall i :: 0 <= i < |r| ==> r[i] == ps[i + 1];
      LexRead(r);
      assert [p] + r == ps;
      HarmlessApart(p, r);
      LexPiece(p, r);
      HarmlessFirst(p, Glyphs(r));
    }
  }

  lemma HarmlessApart(p: Piece, k: seq<Piece>)
    requires Harmless(p) && CharAt(Glyphs(k), 0) != '='
    ensures ApartFrom(p, k)
  {}

  lemma HarmlessFirst(p: Piece, g: seq<Glyph>)
    requires Harmless(p)
    ensures CharAt(GlyphsOf(p) + g, 0) != '='
  {
    if p.Tok? && p.t.Sym? { assert (Spelled(p.t.s) + g)[0] == Ch(Spell(p.t.s)[0]); }
  }

  // ----- the stack -----

  datatype Kind = Last | IsPointer | IsArray | IsFunction

  datatype Item = Item(kind: Kind, t: Type)

  predicate ItemOk(x: Item) {
    match x.kind
    case Last => true
    case IsPointer => x.t.Pointer?
    case IsArray => x.t.Array?
    case IsFunction => x.t.Function?
  }

  predicate StackOk(stack: seq<Item>) { forall i :: 0 <= i < |stack| ==> ItemOk(stack[i]) }

  /** Only the last item may be a terminal type. */
  predicate Inner(stack: seq<Item>, n: nat) { n <= |stack| && forall i :: 0 <= i < n ==> stack[i].kind != Last }

  predicate ArrayParentheses(stack: seq<Item>, i: nat)
    requires i < |stack|
  {
    i != 0 && stack[i - 1].kind != IsArray
  }

  /** The tokens that the first pass writes for item `i`. */
  function LeftItem(stack: seq<Item>, i: nat, k: Toks): Toks
    requires i < |stack| && StackOk(stack)
  {
    match stack[i].kind
    case Last => k
    case IsPointer => X(Star, ConstTokens(stack[i].t.const_, k))
    case IsArray => if ArrayParentheses(stack, i) then X(LParen, k) else k
    case IsFunction => if i != 0 then X(LParen, k) else k
  }

  /** The first pass visits items `n - 1` down to 0. */
  function Lefts(stack: seq<Item>, n: nat, k: Toks): Toks
    requires n <= |stack| && StackOk(stack)
  {
    if n == 0 then k else LeftItem(stack, n - 1, Lefts(stack, n - 1, k))
  }

  /** The tokens that the second pass writes for item `i`. */
  function RightItem(native: nat, stack: seq<Item>, params: Option<seq<string>>, i: nat, k: Toks): Toks
    requires i < |stack| && StackOk(stack)
  {
    match stack[i].kind
    case Last => k
    case IsPointer => k
    case IsArray =>
      var r := X(LBracket, T(Number(stack[i].t.n), X(RBracket, k)));
      if ArrayParentheses(stack, i) then X(RParen, r) else r
    case IsFunction =>
      var r := X(LParen, ParamTokens(ParamsToC(native, stack[i].t.args, params, 0), X(RParen, k)));
      if i != 0 then X(RParen, r) else r
  }

  /** The second pass visits items `i` up to `n - 1`. */
  function Rights(native: nat, stack: seq<Item>, params: Option<seq<string>>, i: nat, n: nat, k: Toks): Toks
    requires i <= n <= |stack| && StackOk(stack)
    decreases n - i
  {
    if i == n then k else RightItem(native, stack, params, i, Rights(native, stack, params, i + 1, n, k))
  }

  /** The declarator that the first `n` items stand for. */
  function StackDecl(native: nat, stack: seq<Item>, name: Option<string>, params: Option<seq<string>>, n: nat): Decl
    requires n <= |stack| && StackOk(stack)
  {
    if n == 0 then Id(name)
    else
      var d := StackDecl(native, stack, name, params, n - 1);
      match stack[n - 1].kind
      case Last => d
      case IsPointer => PtrTo(stack[n - 1].t.const_, d)
      case IsArray => ArrOf(d, stack[n - 1].t.n)
      case IsFunction => FunOf(d, ParamsToC(native, stack[n - 1].t.args, params, 0))
  }

  function NameTokens(name: Option<string>, k: Toks): Toks { if name.Some? then T(Word(name.value), k) else k }

  lemma {:induction false} RightsLast(native: nat, stack: seq<Item>, params: Option<seq<string>>, i: nat, n: nat,
      k: Toks)
    requires i <= n < |stack| && StackOk(stack)
    ensures Rights(native, stack, params, i, n + 1, k)
         == Rights(native, stack, params, i, n, RightItem(native, stack, params, n, k))
    decreases n - i
  {
    if i < n { RightsLast(native, stack, params, i + 1, n, k); }
  }

  /** The two passes around the name write the declarator. */
  lemma {:induction false} PassesWriteDeclarator(native: nat, stack: seq<Item>, name: Option<string>,
      params: Option<seq<string>>, n: nat, k: Toks)
    requires StackOk(stack) && Inner(stack, n)
    ensures Lefts(stack, n, NameTokens(name, Rights(native, stack, params, 0, n, k)))
         == DeclTokens(StackDecl(native, stack, name, params, n), k)
    decreases n
  {
    if n > 0 {
      var r := RightItem(native, stack, params, n - 1, k);
      RightsLast(native, stack, params, 0, n - 1, k);
      PassesWriteDeclarator(native, stack, name, params, n - 1, r);
    }
  }

  lemma {:induction false} StackDeclPrefix(native: nat, s: seq<Item>, t: seq<Item>, name: Option<string>,
      params: Option<seq<string>>, n: nat)
    requires n <= |s| <= |t| && StackOk(s) && StackOk(t) && s == t[..|s|]
    ensures StackDecl(native, s, name, params, n) == StackDecl(native, t, name, params, n)
  {
    if n > 0 { StackDeclPrefix(native, s, t, name, params, n - 1); }
  }

  // ----- the emitter -----

  function InfoName(info: Option<Info>): Option<string> { if info.Some? then Some(info.value.name) else None }

  function InfoParams(info: Option<Info>): Option<seq<string>> { if info.Some? then info.value.params else None }

  /** The function type that is written out. */
  function Outermost(t: Type, info: Option<Info>): Option<Type> {
    if info.Some? && info.value.isFunction && t.Function? then Some(t) else None
  }

  /** Named parameters match the prototype. */
  predicate Matches(t: Type, info: Option<Info>) {
    info.Some? && info.value.isFunction && t.Function? && t.args.AndType? && info.value.params.Some? ==>
      |info.value.params.value| == Count(t.args)
  }

  /** The tokens of a declaration. */
  function Meant(native: nat, t: Type, info: Option<Info>, k: Toks): Toks {
    TypeTokens(ToC(native, t, Outermost(t, info), InfoParams(info)), InfoName(info), k)
  }

  /** The methods state what reading the whole output gives, whatever is emitted after it. */
  class Emitter {
    const native: nat
    var out: seq<Piece>

    constructor (native: nat)
      ensures this.native == native && out == []
    {
      this.native := native;
      out := [];
    }

    method Put(p: Piece, ghost k: Toks)
      modifies this
      ensures Read(out, k) == Read(old(out), ReadPiece(p, k))
      ensures Neat(old(out)) && Harmless(p) && !(EndsWord(old(out)) && IsWord(p)) ==> Neat(out)
      ensures EndsWord(out) == IsWord(p)
    {
      ReadApp(out, [p], k);
      ReadOne(p, k);
      out := out + [p];
    }

    method PutSym(s: Sym, ghost k: Toks)
      requires Harmless(Tok(Token.Sym(s)))
      modifies this
      ensures Read(out, k) == Read(old(out), X(s, k))
      ensures (Neat(old(out)) ==> Neat(out)) && !EndsWord(out)
    {
      Put(Tok(Token.Sym(s)), k);
    }

    method PutSpace(ghost k: Toks)
      modifies this
      ensures Read(out, k) == Read(old(out), k)
      ensures (Neat(old(out)) ==> Neat(out)) && !EndsWord(out)
    {
      Put(Blank, k);
    }

    /** Emits `const`, followed by a space, where it is wanted. */
    method PutConst(c: bool, ghost k: Toks)
      modifies this
      ensures Read(out, k) == Read(old(out), ConstTokens(c, k))
      ensures !EndsWord(old(out)) ==> !EndsWord(out) && (Neat(old(out)) ==> Neat(out))
    {
      if c {
        Put(Tok(Keyword("const")), k);
        PutSpace(k);
      }
    }

    /** Emits a declaration of type `t`; `after` is whatever is emitted behind it. */
    method EmitDeclaration(t: Type, info: Option<Info>, ghost after: Toks)
      requires Matches(t, info)
      modifies this
      ensures Read(out, after) == Read(old(out), Meant(native, t, info, after))
      ensures Neat(old(out)) && !EndsWord(old(out)) ==> Neat(out)
      decreases TypeSize(t), 8
    {
      var outermost, params, name := Outermost(t, info), InfoParams(info), InfoName(info);
      var stack, cur := Unfold(t, outermost, params, name);
      ghost var r := Rights(native, stack, params, 0, |stack|, after);
      ghost var l := Lefts(stack, |stack|, NameTokens(name, r));
      PassesWriteDeclarator(native, stack, name, params, |stack|, after);
      EmitTerminal(cur, outermost, params, l);
      var needSpace := EmitLefts(stack, NameTokens(name, r));
      if name.Some? {
        if needSpace { PutSpace(NameTokens(name, r)); }
        Put(Tok(Word(name.value)), r);
      }
      EmitRights(stack, params, after, TypeSize(t));
    }

    /** The first loop: unfolds the type onto the stack down to a terminal type. */
    method Unfold(t: Type, outermost: Option<Type>, ghost params: Option<seq<string>>, ghost name: Option<string>)
      returns (stack: seq<Item>, cur: Type)
      ensures StackOk(stack) && Inner(stack, |stack|) && TypeSize(cur) <= TypeSize(t)
      ensures forall i :: 0 <= i < |stack| ==> TypeSize(stack[i].t) <= TypeSize(t)
      ensures EndsUnfolding(native, cur, outermost)
      ensures var ct := ToC(native, t, outermost, params);
              && Base(ct) == ToC(native, cur, outermost, params)
              && DeclOf(ct, Id(name)) == StackDecl(native, stack, name, params, |stack|)
    {
      stack, cur := [], t;
      while !EndsUnfolding(native, cur, outermost)
        invariant StackOk(stack) && Inner(stack, |stack|) && TypeSize(cur) <= TypeSize(t)
        invariant forall i :: 0 <= i < |stack| ==> TypeSize(stack[i].t) <= TypeSize(t)
        invariant Unfolded(native, t, cur, outermost, params, name, stack)
        decreases TypeSize(cur)
      {
        var kind := if cur.Pointer? then IsPointer else if cur.Array? then IsArray else IsFunction;
        UnfoldStep(native, t, cur, outermost, params, name, stack, Item(kind, cur));
        stack := stack + [Item(kind, cur)];
        cur := Next(cur);
      }
    }

    method EmitTerminal(cur: Type, ghost outermost: Option<Type>, ghost params: Option<seq<string>>, ghost k: Toks)
      requires EndsUnfolding(native, cur, outermost)
      modifies this
      ensures Read(out, k) == Read(old(out), SpecTokens(ToC(native, cur, outermost, params), k))
      ensures Neat(old(out)) && !EndsWord(old(out)) ==> Neat(out)
      decreases TypeSize(cur), 7
    {
      if cur.Pointer? {
        ghost var inner := Meant(native, cur.to, None, X(RParen, k));
        ghost var m := T(Macro(ForeignMacro(cur.size)), X(LParen, inner));
        PutConst(cur.const_, m);
        Put(Tok(Macro(ForeignMacro(cur.size))), X(LParen, inner));
        PutSym(LParen, inner);
        EmitDeclaration(cur.to, None, X(RParen, k));
        PutSym(RParen, k);
      } else {
        PutConst(cur.const_, T(TypeName(cur.w), k));
        Put(Tok(TypeName(cur.w)), k);
      }
    }

    /** The first pass: stars, qualifiers and opening parentheses, inside out. */
    method EmitLefts(stack: seq<Item>, ghost k: Toks) returns (needSpace: bool)
      requires StackOk(stack)
      modifies this
      ensures Read(out, k) == Read(old(out), Lefts(stack, |stack|, k))
      ensures Neat(old(out)) ==> Neat(out)
      ensures EndsWord(out) ==> needSpace
    {
      needSpace := true;
      var i := |stack|;
      while i > 0
        invariant 0 <= i <= |stack|
        invariant Read(out, Lefts(stack, i, k)) == Read(old(out), Lefts(stack, |stack|, k))
        invariant Neat(old(out)) ==> Neat(out)
        invariant EndsWord(out) ==> needSpace
      {
        i := i - 1;
        needSpace := EmitLeft(stack, i, needSpace, Lefts(stack, i, k));
      }
    }

    method EmitLeft(stack: seq<Item>, i: nat, space: bool, ghost k: Toks) returns (needSpace: bool)
      requires i < |stack| && StackOk(stack) && (EndsWord(out) ==> space)
      modifies this
      ensures Read(out, k) == Read(old(out), LeftItem(stack, i, k))
      ensures Neat(old(out)) ==> Neat(out)
      ensures EndsWord(out) ==> needSpace
    {
      needSpace := space;
      match stack[i].kind {
        case Last =>
        case IsPointer =>
          ghost var c := ConstTokens(stack[i].t.const_, k);
          if needSpace { PutSpace(X(Star, c)); }
          PutSym(Star, c);
          needSpace := false;
          PutConst(stack[i].t.const_, k);
        case IsArray =>
          if ArrayParentheses(stack, i) {
            PutSym(LParen, k);
            needSpace := false;
          }
        case IsFunction =>
          if i != 0 {
            PutSym(LParen, k);
            needSpace := false;
          }
      }
    }

    /** The second pass: closing parentheses, extents and parameter lists, outside in. */
    method EmitRights(stack: seq<Item>, params: Option<seq<string>>, ghost k: Toks, ghost bound: nat)
      requires StackOk(stack) && forall i :: 0 <= i < |stack| ==> TypeSize(stack[i].t) <= bound
      modifies this
      ensures Read(out, k) == Read(old(out), Rights(native, stack, params, 0, |stack|, k))
      ensures Neat(old(out)) ==> Neat(out)
      decreases bound, 7
    {
      var i := 0;
      while i < |stack|
        invariant 0 <= i <= |stack|
        invariant Read(out, Rights(native, stack, params, i, |stack|, k))
            == Read(old(out), Rights(native, stack, params, 0, |stack|, k))
        invariant Neat(old(out)) ==> Neat(out)
      {
        EmitRight(stack, params, i, Rights(native, stack, params, i + 1, |stack|, k), bound);
        i := i + 1;
      }
    }

    method EmitRight(stack: seq<Item>, params: Option<seq<string>>, i: nat, ghost k: Toks, ghost bound: nat)
      requires i < |stack| && StackOk(stack) && TypeSize(stack[i].t) <= bound
      modifies this
      ensures Read(out, k) == Read(old(out), RightItem(native, stack, params, i, k))
      ensures Neat(old(out)) ==> Neat(out)
      decreases bound, 6
    {
      match stack[i].kind {
        case Last =>
        case IsPointer =>
        case IsArray =>
          ghost var n := T(Number(stack[i].t.n), X(RBracket, k));
          if ArrayParentheses(stack, i) { PutSym(RParen, X(LBracket, n)); }
          PutSym(LBracket, n);
          Put(Tok(Number(stack[i].t.n)), X(RBracket, k));
          PutSym(RBracket, k);
        case IsFunction =>
          ghost var ps := ParamTokens(ParamsToC(native, stack[i].t.args, params, 0), X(RParen, k));
          if i != 0 { PutSym(RParen, X(LParen, ps)); }
          PutSym(LParen, ps);
          EmitArguments(stack[i].t.args, params, X(RParen, k));
          PutSym(RParen, k);
      }
    }

    /** The parameters of a function, with names where the declaration gives them. */
    method EmitArguments(ts: Types, params: Option<seq<string>>, ghost k: Toks)
      modifies this
      ensures Read(out, k) == Read(old(out), ParamTokens(ParamsToC(native, ts, params, 0), k))
      ensures Neat(old(out)) && !EndsWord(old(out)) ==> Neat(out)
      decreases TypesSize(ts), 9
    {
      if ts.NoTypes? {
        Put(Tok(Keyword("void")), k);
      } else {
        var rest, j := ts, 0;
        while rest.AndType?
          invariant TypesSize(rest) <= TypesSize(ts) && 0 <= j
          invariant Read(out, Pending(ParamsToC(native, rest, params, j), j == 0, k))
              == Read(old(out), ParamTokens(ParamsToC(native, ts, params, 0), k))
          invariant Neat(old(out)) && !EndsWord(old(out)) ==> Neat(out) && (j == 0 ==> !EndsWord(out))
          decreases TypesSize(rest)
        {
          ghost var here := MoreParams(ParamsToC(native, rest, params, j), k);
          if j != 0 {
            PutSym(Sym.Comma, here);
            PutSpace(here);
          }
          var name := ParamName(params, j);
          var inner := if name.Some? then Some(Info(name.value, false, None)) else None;
          EmitDeclaration(rest.t, inner, Pending(ParamsToC(native, rest.rest, params, j + 1), false, k));
          rest, j := rest.rest, j + 1;
        }
      }
    }
  }

  /** The first loop stops at this type. */
  predicate EndsUnfolding(native: nat, cur: Type, outermost: Option<Type>) {
    !cur.Array? && (cur.Pointer? ==> cur.size != native) && (cur.Function? ==> outermost != Some(cur))
  }

  function Next(t: Type): Type {
    match t case Pointer(_, to, _) => to case Array(e, _) => e case Function(_, _, r, _) => r case _ => t
  }

  /** The stack and the current type together stand for the declared type. */
  ghost predicate Unfolded(native: nat, t: Type, cur: Type, outermost: Option<Type>, params: Option<seq<string>>,
      name: Option<string>, stack: seq<Item>)
    requires StackOk(stack)
  {
    var ct, cc := ToC(native, t, outermost, params), ToC(native, cur, outermost, params);
    Base(cc) == Base(ct) && DeclOf(cc, StackDecl(native, stack, name, params, |stack|)) == DeclOf(ct, Id(name))
  }

  lemma UnfoldStep(native: nat, t: Type, cur: Type, outermost: Option<Type>, params: Option<seq<string>>,
      name: Option<string>, stack: seq<Item>, item: Item)
    requires StackOk(stack) && Unfolded(native, t, cur, outermost, params, name, stack)
    requires !EndsUnfolding(native, cur, outermost)
    requires item == Item(if cur.Pointer? then IsPointer else if cur.Array? then IsArray else IsFunction, cur)
    ensures StackOk(stack + [item]) && Unfolded(native, t, Next(cur), outermost, params, name, stack + [item])
  {
    StackDeclPrefix(native, stack, stack + [item], name, params, |stack|);
    assert (stack + [item])[|stack|] == item;
  }

  /** The parameters still to be written. */
  function Pending(ps: CParams, first: bool, k: Toks): Toks {
    if ps.NoParams? then k else if first then MoreParams(ps, k) else X(Sym.Comma, MoreParams(ps, k))
  }

  lemma ReadOne(p: Piece, k: Toks)
    ensures Read([p], k) == ReadPiece(p, k)
  {
    assert [p][1..] == [];
  }

  // ----- what a declaration says -----

  /** What a typedef of a function type stands for. */
  datatype Prototype = Prototype(ret: Type, args: Types)

  /** The size that the macro of a foreign pointer states, in bits. */
  function MacroBits(m: string): nat { if |m| < 9 then 0 else NumberOf(m[7..|m| - 2]) }

  /** The type that C text states, when `env` holds the typedefs of function types and plain pointers are of size
      `native`. */
  function FromC(native: nat, env: map<string, Prototype>, c: CType): Option<Type> {
    match c
    case CNamed(w, q) => Some(if w in env then Function(w, q, env[w].ret, env[w].args) else Named(w, q))
    case CForeign(m, to, q) => (
      match FromC(native, env, to) case None => None case Some(t) => Some(Pointer(MacroBits(m) / 8, t, q)))
    case CPtr(to, q) => (match FromC(native, env, to) case None => None case Some(t) => Some(Pointer(native, t, q)))
    case CArr(e, n) => (match FromC(native, env, e) case None => None case Some(t) => Some(Array(t, n)))
    case CFun(_, _) => None
  }

  /** The names in the type are those of `env` exactly where it names function types. */
  predicate Agrees(env: map<string, Prototype>, t: Type) {
    match t
    case Named(w, _) => w !in env
    case Function(w, _, r, args) => w in env && env[w] == Prototype(r, args)
    case Pointer(_, to, _) => Agrees(env, to)
    case Array(e, _) => Agrees(env, e)
  }

  predicate AgreeAll(env: map<string, Prototype>, ts: Types) {
    match ts case NoTypes => true case AndType(t, r) => Agrees(env, t) && AgreeAll(env, r)
  }

  lemma MacroTellsBits(size: nat)
    ensures MacroBits(ForeignMacro(size)) == size * 8
  {
    var m := ForeignMacro(size);
    assert m[7..|m| - 2] == Digits(size * 8);
    DigitsRead(size * 8);
  }

  /** Nothing about a type is lost in C: not its qualifiers, extents, pointer sizes, nor their order. */
  lemma {:induction false} FromTo(native: nat, env: map<string, Prototype>, t: Type)
    requires Agrees(env, t)
    ensures FromC(native, env, ToC(native, t, None, None)) == Some(t)
  {
    match t
    case Pointer(size, to, _) =>
      FromTo(native, env, to);
      MacroTellsBits(size);
    case Array(e, _) => FromTo(native, env, e);
    case _ =>
  }

  /** Only the declared function itself is written out. */
  lemma {:induction false} InnerToC(native: nat, t: Type, outer: Type, params: Option<seq<string>>)
    requires TypeSize(t) < TypeSize(outer)
    ensures ToC(native, t, Some(outer), params) == ToC(native, t, None, None)
  {
    match t
    case Pointer(_, to, _) => InnerToC(native, to, outer, params);
    case Array(e, _) => InnerToC(native, e, outer, params);
    case _ =>
  }

  function NthType(ts: Types, j: nat): Type
    requires j < Count(ts)
  {
    if j == 0 then ts.t else NthType(ts.rest, j - 1)
  }

  function CountParams(ps: CParams): nat { match ps case NoParams => 0 case Param(_, _, r) => 1 + CountParams(r) }

  function NthParam(ps: CParams, j: nat): (p: CParams)
    requires j < CountParams(ps)
    ensures p.Param?
  {
    if j == 0 then ps else NthParam(ps.rest, j - 1)
  }

  /** The parameters are declared in order, number `j` with name number `j` where names are given. */
  predicate SaysParams(native: nat, env: map<string, Prototype>, ts: Types, params: Option<seq<string>>, ps: CParams) {
    CountParams(ps) == Count(ts) && forall j: nat :: j < Count(ts) ==>
      && FromC(native, env, NthParam(ps, j).t) == Some(NthType(ts, j))
      && NthParam(ps, j).name
         == if params.Some? && j < |params.value| then Some(params.value[j]) else None
  }

  lemma {:induction false} ParamAt(native: nat, env: map<string, Prototype>, ts: Types, params: Option<seq<string>>,
      from: nat, j: nat)
    requires AgreeAll(env, ts)
    ensures var ps := ParamsToC(native, ts, params, from);
            && CountParams(ps) == Count(ts)
            && (j < Count(ts) ==>
                  && FromC(native, env, NthParam(ps, j).t) == Some(NthType(ts, j))
                  && NthParam(ps, j).name
                     == if params.Some? && from + j < |params.value| then Some(params.value[from + j]) else None)
  {
    if ts.AndType? {
      FromTo(native, env, ts.t);
      ParamAt(native, env, ts.rest, params, from + 1, if j > 0 then j - 1 else 0);
    }
  }

  lemma AllParams(native: nat, env: map<string, Prototype>, ts: Types, params: Option<seq<string>>)
    requires AgreeAll(env, ts)
    ensures SaysParams(native, env, ts, params, ParamsToC(native, ts, params, 0))
  {
    var ps := ParamsToC(native, ts, params, 0);
    ParamAt(native, env, ts, params, 0, 0);
    forall j: nat | j < Count(ts)
      ensures FromC(native, env, NthParam(ps, j).t) == Some(NthType(ts, j))
      ensures NthParam(ps, j).name == if params.Some? && j < |params.value| then Some(params.value[j]) else None
    {
      ParamAt(native, env, ts, params, 0, j);
    }
  }

  /** A declaration says which type it declares; that of a function, its result and its parameters. */
  ghost predicate Says(native: nat, env: map<string, Prototype>, t: Type, info: Option<Info>, c: CType) {
    if info.Some? && info.value.isFunction && t.Function? then
      Agrees(env, t.ret) && AgreeAll(env, t.args) ==>
        && c.CFun? && FromC(native, env, c.ret) == Some(t.ret)
        && SaysParams(native, env, t.args, info.value.params, c.ps)
    else Agrees(env, t) ==> FromC(native, env, c) == Some(t)
  }

  lemma DeclaredSays(native: nat, env: map<string, Prototype>, t: Type, info: Option<Info>)
    ensures Says(native, env, t, info, ToC(native, t, Outermost(t, info), InfoParams(info)))
  {
    if info.Some? && info.value.isFunction && t.Function? {
      if Agrees(env, t.ret) && AgreeAll(env, t.args) {
        InnerToC(native, t.ret, t, info.value.params);
        FromTo(native, env, t.ret);
        AllParams(native, env, t.args, info.value.params);
      }
    } else if Agrees(env, t) {
      Unnamed(native, t, InfoParams(info));
      FromTo(native, env, t);
    }
  }

  lemma {:induction false} Unnamed(native: nat, t: Type, params: Option<seq<string>>)
    ensures ToC(native, t, None, params) == ToC(native, t, None, None)
  {
    match t
    case Pointer(_, to, _) => Unnamed(native, to, params);
    case Array(e, _) => Unnamed(native, e, params);
    case _ =>
  }

  // ----- the theorem -----

  /** What is emitted for a declaration declares its name with its type. */
  method Declare(native: nat, t: Type, info: Option<Info>) returns (out: seq<Piece>)
    requires Matches(t, info)
    ensures ParseDeclaration(Lex(Glyphs(out)))
        == Some((InfoName(info), ToC(native, t, Outermost(t, info), InfoParams(info))))
    ensures forall env :: Says(native, env, t, info, ParseDeclaration(Lex(Glyphs(out))).value.1)
    ensures Neat(out)
  {
    var e := new Emitter(native);
    e.EmitDeclaration(t, info, End);
    out := e.out;
    LexRead(out);
    DeclarationRead(ToC(native, t, Outermost(t, info), InfoParams(info)), InfoName(info));
    forall env ensures Says(native, env, t, info, ParseDeclaration(Lex(Glyphs(out))).value.1) {
      DeclaredSays(native, env, t, info);
    }
  }
}
