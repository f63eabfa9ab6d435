/** The shapes on which printing fails: an expression is read back if and only if none of them occurs in it. */
module CExactness {
  import opened Wrappers
  import opened CTokens
  import opened CParser
  import opened CPrinter
  import opened CPrintable
  import opened CLexing
  import opened CRoundTrip
  import opened CYield
  import opened CHidden
  import opened CBreaks

  /** The tree that a reader of the emitted text sees. */
  function Reading(e: Expr): Option<CExpr> { Parse(Lex(Glyphs(Text(e, ParenthesesLevel)))) }

  lemma ReadingTokens(e: Expr)
    requires Legible(e)
    ensures Reading(e) == Parse(Tokens(e, ParenthesesLevel, End))
  {
    var g := Text(e, ParenthesesLevel);
    assert g + [] == g;
    LexText(e, ParenthesesLevel, []);
    assert L([]) == End;
  }

  /** Without a minus sign that runs into another one, a bad shape anywhere makes the text unreadable. */
  lemma BadUnread(e: Expr)
    requires Bad(e)
    ensures Reading(e) == None
  {
    ReadingTokens(e);
    BreakParse(e);
  }

  /** Minus signs that run together leave a token in the wrong place. */
  lemma IllegibleMisread(e: Expr)
    requires Everywhere(Targets, e) && !Legible(e)
    ensures Reading(e) != Some(Erase(e))
  {
    var g := Text(e, ParenthesesLevel);
    assert g + [] == g;
    WrongText(e, ParenthesesLevel, [], End);
    WrongMisread(e);
  }

  lemma WrongMisread(e: Expr)
    requires Wrong(Text(e, ParenthesesLevel), Yield(Erase(e), End))
    ensures Reading(e) != Some(Erase(e))
  {
    var s := L(Text(e, ParenthesesLevel));
    DifferUnequal(Tight(s), Yield(Erase(e), End));
    ParseYield(s);
  }

  // ----- the shapes -----

  lemma LegibleBelow(e: Expr)
    requires LvaluesOk(e) && MinusOk(e) && KidsOk(e)
    ensures Legible(e)
  {
    WeakenBelow(Printability, Legibility, e);
  }

  /** An assignment as third operand of a conditional. */
  lemma AssignmentThird(e: Expr)
    requires LvaluesOk(e) && KidsOk(e) && e.Ternary? && IsInfix(Strip(e.b), Assign)
    ensures Reading(e) == None
  {
    LegibleBelow(e);
    BadUnread(e);
  }

  /** An operand of an intrinsic with an initializer list outside of parentheses: the preprocessor splits it. */
  lemma OpenInitializer(e: Expr)
    requires LvaluesOk(e) && KidsOk(e)
    requires (e.Intrinsic? && OpenCommasAll(e.es) > 0) || (e.IntrinsicCast? && OpenCommas(e.e, PrimaryLevel) > 0)
    ensures Reading(e) == None
  {
    LegibleBelow(e);
    BadUnread(e);
  }

  /** `rr_add((S){1, 2}.x, y)` has three arguments. */
  lemma InitializerInAddition()
    ensures var point := Aggregate("S", Item(Leaf("1"), Item(Leaf("2"), Empty)));
            var sum := Intrinsic("add", Item(Access(point, false, "x"), Item(Leaf("y"), Empty)));
            Reading(point) == Some(Erase(point)) && Reading(sum) == None
  {
    var two := Item(Leaf("2"), Empty);
    var point := Aggregate("S", Item(Leaf("1"), two));
    var last := Item(Leaf("y"), Empty);
    var items := Item(Access(point, false, "x"), last);
    assert Between(Item(Leaf("1"), two)) == 1 + Between(two);
    assert BodyCommas(point) >= 1 && OpenCommas(point, PostfixLevel - 1) >= 1;
    assert OpenCommas(items.e, CommaLevel) >= 1 && OpenCommasAll(items) >= 1;
    assert AllPrintable(Empty) && AllPrintable(two) && AllPrintable(Item(Leaf("1"), two)) && Printable(point);
    assert Printable(items.e) && AllPrintable(last) && AllPrintable(items);
    RoundTrip(point);
    OpenInitializer(Intrinsic("add", items));
  }

  /** An implicit cast between two minus signs. */
  lemma HiddenMinus(e: Expr)
    requires !MinusOk(e)
    ensures Reading(e) != Some(Erase(e))
  {
    var g := Text(e, ParenthesesLevel);
    assert g + [] == g;
    WrongHidden(e, [], End);
    WrongMisread(e);
  }

  /** An empty initializer list. */
  lemma EmptyAggregate(e: Expr)
    requires e.Aggregate? && e.es.Empty?
    ensures Reading(e) == None
  {
    LegibleBelow(e);
    BadUnread(e);
  }

  // ----- the exact condition -----

  /** For every expression whose operands are lvalues where the dialect wants them: what a reader of the text
      sees is the expression if and only if none of the shapes occurs anywhere in it. */
  lemma Exact(e: Expr)
    requires Everywhere(Targets, e)
    ensures Reading(e) == Some(Erase(e)) <==> Printable(e)
  {
    if Printable(e) {
      RoundTrip(e);
    } else if Legible(e) {
      BadUnread(e);
    } else {
      IllegibleMisread(e);
    }
  }
}
