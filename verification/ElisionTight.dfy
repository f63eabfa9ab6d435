/** No cast is left that C would perform by itself. */
module ElisionTight {
  import opened TwosComplement
  import opened Expressions
  import opened Legalization
  import opened CastElision
  import opened CEvaluation
  import opened ElisionSound

  /** A cast in a printed expression, between integers as C sees them. */
  predicate PrintedCast(d: DataModel, x: Ex) { x.Node1? && x.f.Cast? && x.f.k != BoolExtend && IsInt(Seen(d, x.e)) }

  /** The operand of a unary operator or a shift has no cast without which it would be promoted to the same type. */
  predicate TightPromoted(d: DataModel, x: Ex) {
    PrintedCast(d, x) ==> Promote(d.int_, Seen(d, x.e)) != Promote(d.int_, Seen(d, x))
  }

  /** Neither operand has a cast without which the usual arithmetic conversions would lead to the same type. */
  predicate TightCommon(d: DataModel, l: Ex, r: Ex) {
    var t := Common(d.int_, Seen(d, l), Seen(d, r));
    && (PrintedCast(d, l) ==> Common(d.int_, Seen(d, l.e), Seen(d, r)) != t)
    && (PrintedCast(d, r) ==> Common(d.int_, Seen(d, l), Seen(d, r.e)) != t)
  }

  predicate TightNode(d: DataModel, e: Ex) {
    match e
    case Node1(Un(_), _, x) => TightPromoted(d, x)
    case Node1(Cast(k), t, x) => k == BoolExtend ==> !(t == IntTy(d) && IsCompare(x))
    case Node2(g, _, l, r) =>
      Converts(g, Seen(d, l)) ==>
        if g.Bin? && IsShift(g.op) then TightPromoted(d, l) && TightPromoted(d, r) else TightCommon(d, l, r)
    case _ => true
  }

  /** No cast in the printed expression could be left out with the type of every operator unchanged. */
  predicate Tight(d: DataModel, e: Ex) {
    && TightNode(d, e)
    && (e.Node1? ==> Tight(d, e.e))
    && (e.Node2? ==> Tight(d, e.l) && Tight(d, e.r))
  }

  /** The cast under a dropped one, if any, makes a difference to the operator. */
  predicate InnerNeeded(d: DataModel, e: Ex) {
    match e
    case Node1(Un(_), _, x) => DropsPromoted(d, x) ==> !DropsPromoted(d, x.e)
    case Node2(g, _, l, r) =>
      if g.Bin? && IsShift(g.op) then
        (DropsPromoted(d, l) ==> !DropsPromoted(d, l.e)) && (DropsPromoted(d, r) ==> !DropsPromoted(d, r.e))
      else
        var u, v := Under(l, DropsFirst(d, g, l, r)), Under(r, DropsSecond(d, g, l, r));
        && (DropsFirst(d, g, l, r) && IsIntCast(u) ==> Common(d.int_, u.e.ty, v.ty) != Common(d.int_, u.ty, v.ty))
        && (DropsSecond(d, g, l, r) && IsIntCast(v) ==> Common(d.int_, u.ty, v.e.ty) != Common(d.int_, u.ty, v.ty))
    case _ => true
  }

  predicate AllInnerNeeded(d: DataModel, e: Ex) {
    && InnerNeeded(d, e)
    && (e.Node1? ==> AllInnerNeeded(d, e.e))
    && (e.Node2? ==> AllInnerNeeded(d, e.l) && AllInnerNeeded(d, e.r))
  }

  /** C sees the type that the expression had. */
  lemma {:induction false} SeenElided(d: DataModel, e: Ex)
    requires WellTyped(e)
    ensures Seen(d, Elide(d, e)) == Seen(d, e) && IsCompare(Elide(d, e)) == (IsCompare(e) || ElidesExtension(d, e))
  {}

  /** The extension of a comparison to `int` is left out. */
  predicate ElidesExtension(d: DataModel, e: Ex) {
    e.Node1? && e.f == Cast(BoolExtend) && e.ty == IntTy(d) && IsCompare(e.e)
  }

  /** What is left of an operand: a cast between integers only where there was one. */
  lemma OperandElided(d: DataModel, x: Ex)
    requires WellTyped(x) && IsInt(x.ty)
    ensures Seen(d, Elide(d, x)) == x.ty && (PrintedCast(d, Elide(d, x)) <==> IsIntCast(x))
    ensures IsIntCast(x) ==> Seen(d, Elide(d, x).e) == x.e.ty
  {
    SeenElided(d, x);
    if x.Node1? && x.f.Cast? {
      SeenElided(d, x.e);
      if x.f.k == BoolExtend && !ElidesExtension(d, x) { assert Elide(d, x) == Node1(x.f, x.ty, Elide(d, x.e)); }
    }
  }

  lemma OperandPrinted(d: DataModel, x: Ex, drop: bool)
    requires WellTyped(x) && IsInt(x.ty) && (drop ==> IsIntCast(x))
    ensures var u := Under(x, drop);
            var y := Elide(d, u);
            && WellTyped(u) && IsInt(u.ty) && Seen(d, y) == u.ty && (PrintedCast(d, y) <==> IsIntCast(u))
            && (PrintedCast(d, y) ==> Seen(d, y.e) == u.e.ty)
  {
    OperandElided(d, Under(x, drop));
  }

  lemma TightUnary(d: DataModel, x: Ex)
    requires WellTyped(x) && IsInt(x.ty)
    ensures TightPromoted(d, Elide(d, Under(x, DropsPromoted(d, x)))) <==>
            (DropsPromoted(d, x) ==> !DropsPromoted(d, x.e))
  {
    OperandPrinted(d, x, DropsPromoted(d, x));
  }

  /** A cast of the first operand that was kept is still needed after the second one was dropped. */
  lemma StillNeeded(int_: nat, t: Ty, s: Ty, u: Ty)
    requires int_ > 0 && IsInt(t) && IsInt(s) && IsInt(u)
    requires Common(int_, s, t) != Common(int_, t, t) && Common(int_, t, u) == Common(int_, t, t)
    ensures Common(int_, s, u) != Common(int_, t, t)
  {
    CommonCases(int_, s, t);
    CommonCases(int_, t, t);
    CommonCases(int_, t, u);
    CommonCases(int_, s, u);
  }

  lemma TightOperands(d: DataModel, l: Ex, r: Ex)
    requires ModelOk(d) && WellTyped(l) && WellTyped(r) && IsInt(l.ty) && l.ty == r.ty
    ensures var first, second := DropsLeft(d, l, r), DropsRight(d, l, r);
            var u, v := Under(l, first), Under(r, second);
            TightCommon(d, Elide(d, u), Elide(d, v)) <==>
              && (first && IsIntCast(u) ==> Common(d.int_, u.e.ty, v.ty) != Common(d.int_, u.ty, v.ty))
              && (second && IsIntCast(v) ==> Common(d.int_, u.ty, v.e.ty) != Common(d.int_, u.ty, v.ty))
  {
    var first, second := DropsLeft(d, l, r), DropsRight(d, l, r);
    OperandPrinted(d, l, first);
    OperandPrinted(d, r, second);
    if IsIntCast(l) && !first && second { StillNeeded(d.int_, l.ty, l.e.ty, r.e.ty); }
  }

  lemma {:induction false} TightAt(d: DataModel, e: Ex)
    requires ModelOk(d) && WellTyped(e) && !ElidesExtension(d, e)
    ensures TightNode(d, Elide(d, e)) <==> InnerNeeded(d, e)
  {
    match e
    case Node1(Un(_), _, x) => TightUnary(d, x);
    case Node1(Cast(k), t, x) => if k == BoolExtend { SeenElided(d, x); }
    case Node2(g, _, l, r) =>
      if g.Bin? && IsShift(g.op) {
        TightUnary(d, l);
        TightUnary(d, r);
      } else if g.Bin? || (g.Compare? && l.ty.Int?) {
        TightOperands(d, l, r);
        OperandPrinted(d, l, DropsLeft(d, l, r));
      } else if g.Compare? {
        SeenElided(d, l);
      }
    case _ =>
  }

  lemma CastsNeedNothing(d: DataModel, x: Ex)
    requires IsIntCast(x)
    ensures AllInnerNeeded(d, x) <==> AllInnerNeeded(d, x.e)
  {}

  /** The pass leaves no cast that it could have dropped, exactly if under every cast that it drops there is none
      that it could drop as well. */
  lemma {:induction false} ElideTight(d: DataModel, e: Ex)
    requires ModelOk(d) && WellTyped(e)
    ensures Tight(d, Elide(d, e)) <==> AllInnerNeeded(d, e)
    decreases e
  {
    if !ElidesExtension(d, e) { TightAt(d, e); }
    match e
    case Node1(_, _, x) =>
      ElideTight(d, x);
      if IsIntCast(x) {
        ElideTight(d, x.e);
        CastsNeedNothing(d, x);
      }
    case Node2(g, _, l, r) =>
      ElideTight(d, l);
      ElideTight(d, r);
      if IsIntCast(l) {
        ElideTight(d, l.e);
        CastsNeedNothing(d, l);
      }
      if IsIntCast(r) {
        ElideTight(d, r.e);
        CastsNeedNothing(d, r);
      }
    case _ =>
  }

  /** Only the outer one of two casts is looked at: `-(int32_t) (int16_t) x` is printed `-(int16_t) x`, although C
      would promote an `int8_t` just as well. */
  lemma CastOnCast()
    ensures var d := DataModel(4, 8, {4, 8}, {1, 2}, {1, 2, 4, 8});
            var x := Var(0, Int(1, true));
            var inner := Node1(Cast(SignExtend), Int(2, true), x);
            var e := Node1(Un(Neg), Int(4, true), Node1(Cast(SignExtend), Int(4, true), inner));
            ModelOk(d) && WellTyped(e) && Elide(d, e) == Node1(Un(Neg), Int(4, true), inner) && !Tight(d, Elide(d, e))
  {
    var d := DataModel(4, 8, {4, 8}, {1, 2}, {1, 2, 4, 8});
    var x := Var(0, Int(1, true));
    var inner := Node1(Cast(SignExtend), Int(2, true), x);
    var outer := Node1(Cast(SignExtend), Int(4, true), inner);
    assert DropsPromoted(d, outer) && Elide(d, inner) == inner;
    assert !TightPromoted(d, inner);
  }
}
