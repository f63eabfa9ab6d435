/** Tokens of C and how emitted text is split into them (section 6.4 of ISO/IEC 9899:2011).

    Identifiers, literals, keywords, macro names and type names are single glyphs; punctuators are
    spelled out, so that two of them emitted side by side may be read as another one. */
module CTokens {
  import opened Wrappers

  datatype Sym =
    | LParen | RParen | LBracket | RBracket | LBrace | RBrace
    | Dot | Arrow | PlusPlus | MinusMinus | Amp | Star | Plus | Minus | Tilde | Exclaim
    | Slash | Percent | LessLess | GreaterGreater | Less | Greater | LessEq | GreaterEq | EqEq | NotEq
    | Caret | Pipe | AmpAmp | PipePipe | Question | Colon | Semicolon | Ellipsis
    | Eq | StarEq | SlashEq | PercentEq | PlusEq | MinusEq | LessLessEq | GreaterGreaterEq | AmpEq | CaretEq | PipeEq
    | Comma

  datatype Token =
      | Word(w: string) | Macro(w: string) | TypeName(t: string) | Keyword(w: string) | Number(n: nat) | Sym(s: Sym)

  /** What the emitter writes: spaces and tokens. */
  datatype Piece = Blank | Tok(t: Token)

  /** What the reader sees: the characters of punctuators run together. */
  datatype Glyph = Gap | Ch(c: char) | Whole(t: Token)

  function Spell(s: Sym): string {
    match s
    case LParen => "(" case RParen => ")" case LBracket => "[" case RBracket => "]" case LBrace => "{"
    case RBrace => "}"
    case Dot => "." case Arrow => "->" case PlusPlus => "++" case MinusMinus => "--" case Amp => "&" case Star => "*"
    case Plus => "+" case Minus => "-" case Tilde => "~" case Exclaim => "!" case Slash => "/" case Percent => "%"
    case LessLess => "<<" case GreaterGreater => ">>" case Less => "<" case Greater => ">" case LessEq => "<="
    case GreaterEq => ">=" case EqEq => "==" case NotEq => "!=" case Caret => "^" case Pipe => "|" case AmpAmp => "&&"
    case PipePipe => "||" case Question => "?" case Colon => ":" case Semicolon => ";" case Ellipsis => "..."
    case Eq => "=" case StarEq => "*=" case SlashEq => "/=" case PercentEq => "%=" case PlusEq => "+="
    case MinusEq => "-="
    case LessLessEq => "<<=" case GreaterGreaterEq => ">>=" case AmpEq => "&=" case CaretEq => "^=" case PipeEq => "|="
    case Comma => ","
  }

  function Of3(a: char, b: char, c: char): Option<Sym> {
    if a == '.' && b == '.' && c == '.' then Some(Ellipsis)
    else if a == '<' && b == '<' && c == '=' then Some(LessLessEq)
    else if a == '>' && b == '>' && c == '=' then Some(GreaterGreaterEq)
    else None
  }

  function Of2(a: char, b: char): Option<Sym> {
    if b == '=' then
      if a == '=' then Some(EqEq) else if a == '!' then Some(NotEq) else if a == '<' then Some(LessEq)
      else if a == '>' then Some(GreaterEq) else if a == '*' then Some(StarEq) else if a == '/' then Some(SlashEq)
      else if a == '%' then Some(PercentEq) else if a == '+' then Some(PlusEq) else if a == '-' then Some(MinusEq)
      else if a == '&' then Some(AmpEq) else if a == '^' then Some(CaretEq) else if a == '|' then Some(PipeEq)
      else None
    else if a == b then
      if a == '+' then Some(PlusPlus) else if a == '-' then Some(MinusMinus) else if a == '&' then Some(AmpAmp)
      else if a == '|' then Some(PipePipe) else if a == '<' then Some(LessLess)
      else if a == '>' then Some(GreaterGreater)
      else None
    else if a == '-' && b == '>' then Some(Arrow)
    else None
  }

  function Of1(a: char): Option<Sym> {
    match a
    case '(' => Some(LParen) case ')' => Some(RParen) case '[' => Some(LBracket) case ']' => Some(RBracket)
    case '{' => Some(LBrace) case '}' => Some(RBrace) case '.' => Some(Dot) case '&' => Some(Amp) case '*' => Some(Star)
    case '+' => Some(Plus) case '-' => Some(Minus) case '~' => Some(Tilde) case '!' => Some(Exclaim)
    case '/' => Some(Slash)
    case '%' => Some(Percent) case '<' => Some(Less) case '>' => Some(Greater) case '^' => Some(Caret)
    case '|' => Some(Pipe)
    case '?' => Some(Question) case ':' => Some(Colon) case ';' => Some(Semicolon) case '=' => Some(Eq)
    case ',' => Some(Comma)
    case _ => None
  }

  /** The longest punctuator that begins with the characters `a`, `b`, `c`. */
  function Longest(a: char, b: char, c: char): Option<Sym> {
    if Of3(a, b, c).Some? then Of3(a, b, c) else if Of2(a, b).Some? then Of2(a, b) else Of1(a)
  }

  predicate Fits(s: Sym, a: char, b: char, c: char) {
    var t := Spell(s);
    1 <= |t| <= 3 && t[0] == a && (|t| > 1 ==> t[1] == b) && (|t| > 2 ==> t[2] == c)
  }

  /** The lexer munches maximally: what it finds fits, and nothing longer does. */
  lemma LongestIsLongest(a: char, b: char, c: char)
    ensures Longest(a, b, c).Some? ==> Fits(Longest(a, b, c).value, a, b, c)
    ensures forall s :: Fits(s, a, b, c) ==> Longest(a, b, c).Some? && |Spell(s)| <= |Spell(Longest(a, b, c).value)|
  {
    if Of3(a, b, c).None? && Of2(a, b).None? && Of1(a).Some? { FitsOne(a, b, c); }
    if Of3(a, b, c).None? && Of2(a, b).Some? { FitsTwo(a, b, c); }
    forall s | Fits(s, a, b, c)
      ensures Longest(a, b, c).Some? && |Spell(s)| <= |Spell(Longest(a, b, c).value)|
    {
      NoneLonger(a, b, c, s);
    }
  }

  lemma FitsOne(a: char, b: char, c: char)
    requires Of1(a).Some?
    ensures Fits(Of1(a).value, a, b, c) && |Spell(Of1(a).value)| == 1
  {}

  lemma FitsTwo(a: char, b: char, c: char)
    requires Of2(a, b).Some?
    ensures Fits(Of2(a, b).value, a, b, c) && |Spell(Of2(a, b).value)| == 2
  {}

  lemma FoundThree(a: char, b: char, c: char, s: Sym)
    requires Fits(s, a, b, c) && |Spell(s)| == 3
    ensures Of3(a, b, c).Some?
  {}

  lemma FoundTwo(a: char, b: char, c: char, s: Sym)
    requires Fits(s, a, b, c) && |Spell(s)| == 2
    ensures Of2(a, b).Some?
  {}

  lemma FoundOne(a: char, b: char, c: char, s: Sym)
    requires Fits(s, a, b, c) && |Spell(s)| == 1
    ensures Of1(a).Some?
  {}

  /** A punctuator is as wide as the number of characters that were matched. */
  lemma Wide(a: char, b: char, c: char, n: nat)
    requires (n == 1 && Of1(a).Some?) || (n == 2 && Of2(a, b).Some?) || (n == 3 && Of3(a, b, c).Some?)
    ensures Longest(a, b, c).Some? && n <= |Spell(Longest(a, b, c).value)|
  {
    if Of3(a, b, c).None? && Of2(a, b).Some? { FitsTwo(a, b, c); }
    if Of3(a, b, c).None? && Of2(a, b).None? { FitsOne(a, b, c); }
  }

  lemma NoneLonger(a: char, b: char, c: char, s: Sym)
    requires Fits(s, a, b, c)
    ensures Longest(a, b, c).Some? && |Spell(s)| <= |Spell(Longest(a, b, c).value)|
  {
    var n := |Spell(s)|;
    assert (n == 1 && Of1(a).Some?) || (n == 2 && Of2(a, b).Some?) || (n == 3 && Of3(a, b, c).Some?) by {
      if n == 3 { FoundThree(a, b, c, s); } else if n == 2 { FoundTwo(a, b, c, s); } else { FoundOne(a, b, c, s); }
    }
    Wide(a, b, c, n);
  }


  // ----- lexing -----

  datatype Toks = End | T(hd: Token, tl: Toks)

  /** The character at `i`; a character that is part of no punctuator where there is none. */
  function CharAt(g: seq<Glyph>, i: nat): char {
    if i < |g| && g[i].Ch? then g[i].c else ' '
  }

  lemma NoBlank(s: Sym)
    ensures 1 <= |Spell(s)| <= 3 && forall i :: 0 <= i < |Spell(s)| ==> Spell(s)[i] != ' '
  {}

  function Lex(g: seq<Glyph>): Toks
    decreases |g|
  {
    if g == [] then End
    else
      match g[0]
      case Gap => Lex(g[1..])
      case Whole(t) => T(t, Lex(g[1..]))
      case Ch(c) =>
        match Longest(c, CharAt(g, 1), CharAt(g, 2))
        case None => Lex(g[1..])
        case Some(s) =>
          LongestIsLongest(c, CharAt(g, 1), CharAt(g, 2));
          NoBlank(s);
          T(Sym(s), Lex(g[|Spell(s)|..]))
  }

  function Spelled(s: Sym): (g: seq<Glyph>)
    ensures |g| == |Spell(s)| && forall i :: 0 <= i < |g| ==> g[i] == Ch(Spell(s)[i])
  {
    seq(|Spell(s)|, i requires 0 <= i < |Spell(s)| => Ch(Spell(s)[i]))
  }

  /** The punctuator cannot be continued by the glyph that follows. */
  predicate Apart(s: Sym, k: seq<Glyph>) {
    Longest(Spell(s)[0], if |Spell(s)| > 1 then Spell(s)[1] else CharAt(k, 0),
            if |Spell(s)| > 2 then Spell(s)[2] else CharAt(k, 2 - |Spell(s)|)) == Some(s)
  }

  lemma LexSym(s: Sym, k: seq<Glyph>)
    requires Apart(s, k)
    ensures Lex(Spelled(s) + k) == T(Sym(s), Lex(k))
  {
    NoBlank(s);
    LexHead(s, Spell(s), k);
  }

  lemma LexHead(s: Sym, w: string, k: seq<Glyph>)
    requires w == Spell(s) && 1 <= |w| <= 3
    requires Longest(w[0], if |w| > 1 then w[1] else CharAt(k, 0), if |w| > 2 then w[2] else CharAt(k, 2 - |w|))
        == Some(s)
    ensures Lex(Spelled(s) + k) == T(Sym(s), Lex(k))
  {
    var g := Spelled(s) + k;
    assert g[0] == Ch(w[0]) && CharAt(g, 1) == (if |w| > 1 then w[1] else CharAt(k, 0));
    assert CharAt(g, 2) == if |w| > 2 then w[2] else CharAt(k, 2 - |w|);
    assert g[|w|..] == k;
  }

  function GlyphsOf(p: Piece): seq<Glyph> {
    match p
    case Blank => [Gap]
    case Tok(Sym(s)) => Spelled(s)
    case Tok(t) => [Whole(t)]
  }

  /** The text of a sequence of pieces. */
  function Glyphs(ps: seq<Piece>): seq<Glyph> {
    if ps == [] then [] else GlyphsOf(ps[0]) + Glyphs(ps[1..])
  }

  /** The piece cannot be continued by what follows. */
  predicate ApartFrom(p: Piece, k: seq<Piece>) {
    p.Tok? && p.t.Sym? ==> Apart(p.t.s, Glyphs(k))
  }

  function ReadPiece(p: Piece, k: Toks): Toks { if p.Blank? then k else T(p.t, k) }

  lemma LexPiece(p: Piece, k: seq<Piece>)
    requires ApartFrom(p, k)
    ensures Lex(Glyphs([p] + k)) == ReadPiece(p, Lex(Glyphs(k)))
  {
    var ps, g := [p] + k, Glyphs(k);
    assert ps[0] == p && ps[1..] == k;
    match p
    case Blank => assert ([Gap] + g)[1..] == g;
    case Tok(Sym(s)) => LexSym(s, g);
    case Tok(t) => assert ([Whole(t)] + g)[1..] == g;
  }
}
