/** The exact condition under which casts to a type below `int` may be dropped on both sides of a comparison. */
module ComparisonExactness {
  import opened TwosComplement
  import opened Expressions
  import opened Legalization
  import opened CastElision
  import opened CEvaluation
  import opened ElisionSound
  import opened ElisionExactness

  // ----- operands -----

  /** An operand is a variable, or a cast of a variable of type `s`. */
  datatype Side = Plain | Under(k: CastKind, s: Ty)

  predicate SideOk(a: Side, t: Ty) { IsInt(t) && (a.Under? ==> GoodCast(a.k, a.s, t)) }

  function OperandOf(a: Side, t: Ty, x: nat): (e: Ex)
    requires SideOk(a, t)
    ensures WellTyped(e) && e.ty == t
  {
    if a.Plain? then Var(x, t) else CastOf(a.k, t, x, a.s)
  }

  predicate IsDropped(d: DataModel, a: Side) { a.Under? && Contains(IntTy(d), a.s) }

  /** The type and the expression that C sees. */
  function BareType(d: DataModel, a: Side, t: Ty): Ty { if IsDropped(d, a) then a.s else t }

  function BareOperand(d: DataModel, a: Side, t: Ty, x: nat): Ex
    requires SideOk(a, t)
  {
    if IsDropped(d, a) then Var(x, a.s) else OperandOf(a, t, x)
  }

  function Comparison(c: CmpOp, a: Side, b: Side, t: Ty, x: nat, y: nat): (e: Ex)
    requires SideOk(a, t) && SideOk(b, t)
    ensures WellTyped(e)
  {
    Node2(Compare(c), Bool, OperandOf(a, t, x), OperandOf(b, t, y))
  }

  lemma OperandStays(d: DataModel, a: Side, t: Ty, x: nat)
    requires SideOk(a, t)
    ensures Elide(d, OperandOf(a, t, x)) == OperandOf(a, t, x)
    ensures a.Under? ==> Elide(d, OperandOf(a, t, x).e) == Var(x, a.s) && a.k != BoolExtend
  {}

  /** A cast is dropped exactly if `int` contains the type under it. */
  lemma Elided(d: DataModel, c: CmpOp, a: Side, b: Side, t: Ty, x: nat, y: nat)
    requires ModelOk(d) && SideOk(a, t) && SideOk(b, t) && t.size < d.int_
    ensures Elide(d, Comparison(c, a, b, t, x, y))
            == Node2(Compare(c), Bool, BareOperand(d, a, t, x), BareOperand(d, b, t, y))
  {
    var l, r := OperandOf(a, t, x), OperandOf(b, t, y);
    OperandStays(d, a, t, x);
    OperandStays(d, b, t, y);
    CommonCases(d.int_, t, t);
    if a.Under? { CommonCases(d.int_, a.s, t); }
    assert DropsLeft(d, l, r) == IsDropped(d, a);
    if b.Under? { CommonCases(d.int_, BareType(d, a, t), b.s); }
    assert DropsRight(d, l, r) == IsDropped(d, b);
  }

  // ----- numbers -----

  function Lo(t: Ty): int
    requires IsInt(t)
  {
    if t.signed then 0 - Half(Width(t)) else 0
  }

  function Hi(t: Ty): int
    requires IsInt(t)
  {
    if t.signed then Half(Width(t)) - 1 else Pow2(Width(t)) - 1
  }

  lemma Range(n: int, t: Ty)
    requires IsInt(t)
    ensures InType(n, t) <==> Lo(t) <= n <= Hi(t)
    ensures Lo(t) <= 0 && 1 <= Hi(t) && Hi(t) - Lo(t) == Pow2(Width(t)) - 1
  {
    HalfTwice(Width(t));
    Pow2Monotone(1, Width(t) - 1);
    assert Pow2(1) == 2 * Pow2(0);
  }

  /** The number that a conversion to `t` makes of `n`. */
  function Fold(n: int, t: Ty): int
    requires IsInt(t)
  {
    Number(Wrap(n, Width(t)), t)
  }

  lemma FoldInside(n: int, t: Ty)
    requires IsInt(t) && InType(n, t)
    ensures Fold(n, t) == n
  {
    NumberOf(n, t);
  }

  lemma NumberInside(a: nat, t: Ty)
    requires IsInt(t) && a < Pow2(Width(t))
    ensures InType(Number(a, t), t) && Wrap(Number(a, t), Width(t)) == a
  {
    HalfTwice(Width(t));
    ViewWrap(a, Width(t), t.signed);
  }

  /** The number of an operand, as C sees it. */
  function SeenNumber(d: DataModel, a: Side, t: Ty, x: nat, env: Env): int
    requires SideOk(a, t)
  {
    if IsDropped(d, a) then Number(Wrap(env.variables(x), Width(a.s)), a.s)
    else Number(Eval(OperandOf(a, t, x), env), t)
  }

  lemma OperandNumber(d: DataModel, a: Side, t: Ty, x: nat, env: Env)
    requires ModelOk(d) && SideOk(a, t)
    ensures var n, e := SeenNumber(d, a, t, x, env), BareOperand(d, a, t, x);
            && InType(n, BareType(d, a, t)) && Fold(n, t) == Number(Eval(OperandOf(a, t, x), env), t)
            && CTyped(d, e) && CType(d, e) == BareType(d, a, t)
            && CEval(d, e, env) < Pow2(Width(BareType(d, a, t))) && Number(CEval(d, e, env), BareType(d, a, t)) == n
  {
    var e := OperandOf(a, t, x);
    if a.Under? { DroppedCast(e, env); }
    if IsDropped(d, a) {
      NumberInside(Wrap(env.variables(x), Width(a.s)), a.s);
    } else {
      NumberInside(Eval(e, env), t);
      FoldInside(Number(Eval(e, env), t), t);
    }
  }

  /** What both sides of the comparison stand for, before and after the casts are dropped. */
  lemma Compared(d: DataModel, c: CmpOp, a: Side, b: Side, t: Ty, x: nat, y: nat, env: Env)
    requires ModelOk(d) && SideOk(a, t) && SideOk(b, t) && t.size < d.int_ && (Ordering(c) ==> c.signed == t.signed)
    ensures var m, n := SeenNumber(d, a, t, x, env), SeenNumber(d, b, t, y, env);
            var e := Comparison(c, a, b, t, x, y);
            && CTyped(d, Elide(d, e)) && CEval(d, Elide(d, e), env) == Truth(Holds(c, m, n))
            && Eval(e, env) == Truth(Holds(c, Fold(m, t), Fold(n, t)))
  {
    var e := Comparison(c, a, b, t, x, y);
    Elided(d, c, a, b, t, x, y);
    OperandNumber(d, a, t, x, env);
    OperandNumber(d, b, t, y, env);
    ComparedNumbers(c, t, Eval(e.l, env), Eval(e.r, env));
    ComputedByC(d, c, BareOperand(d, a, t, x), BareOperand(d, b, t, y), env);
  }

  lemma ComputedByC(d: DataModel, c: CmpOp, l: Ex, r: Ex, env: Env)
    requires ModelOk(d) && CTyped(d, l) && CTyped(d, r) && IsInt(CType(d, l)) && IsInt(CType(d, r))
    requires Contains(IntTy(d), CType(d, l)) && Contains(IntTy(d), CType(d, r))
    requires CEval(d, l, env) < Pow2(Width(CType(d, l))) && CEval(d, r, env) < Pow2(Width(CType(d, r)))
    ensures var e := Node2(Compare(c), Bool, l, r);
            CTyped(d, e) && CEval(d, e, env)
            == Truth(Holds(c, Number(CEval(d, l, env), CType(d, l)), Number(CEval(d, r, env), CType(d, r))))
  {
    var a, b, s, t := CEval(d, l, env), CEval(d, r, env), CType(d, l), CType(d, r);
    CommonCases(d.int_, s, t);
    ContainedNumber(a, s, IntTy(d));
    ContainedNumber(b, t, IntTy(d));
    NodeValue(d, Compare(c), Bool, l, r, env);
    CompareValue(d, c, s, t, a, b, env);
  }

  /** Every number of its type is the number of an operand. */
  lemma Reached(d: DataModel, a: Side, t: Ty, x: nat, n: int, env: Env)
    requires ModelOk(d) && SideOk(a, t) && t.size < d.int_ && InType(n, BareType(d, a, t))
    requires env.variables(x) == Wrap(n, Width(BareType(d, a, t)))
    ensures SeenNumber(d, a, t, x, env) == n
  {
    var v := BareType(d, a, t);
    NumberOf(n, v);
    if a.Plain? || IsDropped(d, a) {
      WrapSmall(env.variables(x), Width(v));
    } else {
      CutReached(a, t, x, env);
    }
  }

  /** A cast that stays cuts, and leaves small numbers as they are. */
  lemma CutReached(a: Side, t: Ty, x: nat, env: Env)
    requires SideOk(a, t) && a.Under? && a.s.size > t.size && env.variables(x) < Pow2(Width(t))
    ensures Eval(OperandOf(a, t, x), env) == env.variables(x)
  {
    var b := env.variables(x);
    Pow2Monotone(Width(t), Width(a.s));
    WrapSmall(b, Width(a.s));
    WrapSmall(b, Width(t));
    assert a.k == Truncate && Eval(Var(x, a.s), env) == b;
  }

  // ----- which numbers compare alike -----

  /** For all numbers of two types, the comparison does not see the conversion to `t`. */
  ghost predicate Agree(c: CmpOp, v: Ty, w: Ty, t: Ty)
    requires IsInt(v) && IsInt(w) && IsInt(t)
  {
    forall m: int, n: int :: InType(m, v) && InType(n, w) ==> Holds(c, m, n) == Holds(c, Fold(m, t), Fold(n, t))
  }

  lemma KeptAgree(d: DataModel, c: CmpOp, a: Side, b: Side, t: Ty, x: nat, y: nat)
    requires ModelOk(d) && SideOk(a, t) && SideOk(b, t) && t.size < d.int_ && (Ordering(c) ==> c.signed == t.signed)
    requires x != y
    ensures KeptByC(d, Comparison(c, a, b, t, x, y)) <==> Agree(c, BareType(d, a, t), BareType(d, b, t), t)
  {
    var e, v, w := Comparison(c, a, b, t, x, y), BareType(d, a, t), BareType(d, b, t);
    Compared(d, c, a, b, t, x, y, Values(x, 0, 0));
    if Agree(c, v, w, t) {
      forall env: Env ensures CEval(d, Elide(d, e), env) == Eval(e, env) { AgreeKept(d, c, a, b, t, x, y, env); }
    } else {
      var m: int, n: int :| InType(m, v) && InType(n, w) && Holds(c, m, n) != Holds(c, Fold(m, t), Fold(n, t));
      DisagreeSeen(d, c, a, b, t, x, y, m, n);
    }
  }

  lemma AgreeKept(d: DataModel, c: CmpOp, a: Side, b: Side, t: Ty, x: nat, y: nat, env: Env)
    requires ModelOk(d) && SideOk(a, t) && SideOk(b, t) && t.size < d.int_ && (Ordering(c) ==> c.signed == t.signed)
    requires Agree(c, BareType(d, a, t), BareType(d, b, t), t)
    ensures var e := Comparison(c, a, b, t, x, y);
            CTyped(d, Elide(d, e)) && CEval(d, Elide(d, e), env) == Eval(e, env)
  {
    Compared(d, c, a, b, t, x, y, env);
    OperandNumber(d, a, t, x, env);
    OperandNumber(d, b, t, y, env);
  }

  lemma DisagreeSeen(d: DataModel, c: CmpOp, a: Side, b: Side, t: Ty, x: nat, y: nat, m: int, n: int)
    requires ModelOk(d) && SideOk(a, t) && SideOk(b, t) && t.size < d.int_ && (Ordering(c) ==> c.signed == t.signed)
    requires x != y && InType(m, BareType(d, a, t)) && InType(n, BareType(d, b, t))
    requires Holds(c, m, n) != Holds(c, Fold(m, t), Fold(n, t))
    ensures !KeptByC(d, Comparison(c, a, b, t, x, y))
  {
    var e := Comparison(c, a, b, t, x, y);
    var env := Values(x, Wrap(m, Width(BareType(d, a, t))), Wrap(n, Width(BareType(d, b, t))));
    Reached(d, a, t, x, m, env);
    Reached(d, b, t, y, n, env);
    Compared(d, c, a, b, t, x, y, env);
    assert CEval(d, Elide(d, e), env) != Eval(e, env);
  }

  lemma ContainsRange(t: Ty, s: Ty)
    requires IsInt(t) && IsInt(s)
    ensures Contains(t, s) ==> Lo(t) <= Lo(s) && Hi(s) <= Hi(t)
  {
    if Contains(t, s) {
      HalfTwice(Width(t));
      HalfTwice(Width(s));
      Pow2Monotone(Width(s) - 1, Width(t) - 1);
      if s.size < t.size { Pow2Monotone(Width(s), Width(t) - 1); }
    }
  }

  /** A number outside of `t`, and what the conversion makes of it. */
  lemma Outlier(t: Ty, s: Ty) returns (u: int)
    requires IsInt(t) && IsInt(s) && !Contains(t, s)
    ensures InType(u, s)
    ensures (u >= 2 && Fold(u, t) == 0) || (u < 0 <= Fold(u, t) - 1) || (Fold(u, t) < 0 <= u - 1)
  {
    var w := Width(t);
    Range(0, t);
    Range(0, s);
    HalfTwice(w);
    if s.size > t.size {
      u := Pow2(w);
      Pow2Monotone(w + 1, Width(s) - 1);
      assert Pow2(w + 1) == 2 * Pow2(w);
      Pow2Monotone(Width(s) - 1, Width(s));
      ModUnique(u, 1, 0, Pow2(w));
    } else if s.signed {
      u := -1;
      ModUnique(-1, -1, Pow2(w) - 1, Pow2(w));
    } else {
      u := Pow2(w) - 1;
      WrapSmall(u, w);
    }
  }

  lemma OrderSees(c: CmpOp, v: Ty, w: Ty, t: Ty)
    requires IsInt(v) && IsInt(w) && IsInt(t) && Ordering(c) && !Contains(t, v)
    ensures !Agree(c, v, w, t)
  {
    var u := Outlier(t, v);
    var n := if u >= 2 && Fold(u, t) == 0 && (c.Lt? || c.Ge?) then 1 else 0;
    Range(n, w);
    Range(n, t);
    FoldInside(n, t);
    assert Holds(c, u, n) != Holds(c, Fold(u, t), n);
  }

  function Flip(c: CmpOp): CmpOp {
    match c
    case Eq => Eq case Ne => Ne
    case Lt(s) => Gt(s) case Gt(s) => Lt(s) case Le(s) => Ge(s) case Ge(s) => Le(s)
  }

  lemma FlipAgree(c: CmpOp, v: Ty, w: Ty, t: Ty)
    requires IsInt(v) && IsInt(w) && IsInt(t)
    ensures Agree(c, v, w, t) <==> Agree(Flip(c), w, v, t)
  {
    assert forall m: int, n: int :: Holds(c, m, n) == Holds(Flip(c), n, m);
    if Agree(Flip(c), w, v, t) {
      forall m: int, n: int | InType(m, v) && InType(n, w)
        ensures Holds(c, m, n) == Holds(c, Fold(m, t), Fold(n, t))
      {
        assert Holds(Flip(c), n, m) == Holds(Flip(c), Fold(n, t), Fold(m, t));
      }
    }
    if Agree(c, v, w, t) {
      forall n: int, m: int | InType(n, w) && InType(m, v)
        ensures Holds(Flip(c), n, m) == Holds(Flip(c), Fold(n, t), Fold(m, t))
      {
        assert Holds(c, m, n) == Holds(c, Fold(m, t), Fold(n, t));
      }
    }
  }

  lemma OrderExact(c: CmpOp, v: Ty, w: Ty, t: Ty)
    requires IsInt(v) && IsInt(w) && IsInt(t) && Ordering(c)
    ensures Agree(c, v, w, t) <==> Contains(t, v) && Contains(t, w)
  {
    if Contains(t, v) && Contains(t, w) {
      ContainsRange(t, v);
      ContainsRange(t, w);
      forall m: int, n: int | InType(m, v) && InType(n, w)
        ensures Holds(c, m, n) == Holds(c, Fold(m, t), Fold(n, t))
      {
        Inside(m, v, t);
        Inside(n, w, t);
      }
    } else if !Contains(t, v) {
      OrderSees(c, v, w, t);
    } else {
      OrderSees(Flip(c), w, v, t);
      FlipAgree(c, v, w, t);
    }
  }

  lemma Inside(n: int, s: Ty, t: Ty)
    requires IsInt(s) && IsInt(t) && InType(n, s) && Lo(t) <= Lo(s) && Hi(s) <= Hi(t)
    ensures Fold(n, t) == n
  {
    Range(n, s);
    Range(n, t);
    FoldInside(n, t);
  }

  /** Numbers of the two types are less than the number of values of `t` apart. */
  predicate Close(v: Ty, w: Ty, t: Ty)
    requires IsInt(v) && IsInt(w) && IsInt(t)
  {
    Hi(v) - Lo(w) < Pow2(Width(t)) && Hi(w) - Lo(v) < Pow2(Width(t))
  }

  lemma FoldEqual(m: int, n: int, t: Ty)
    requires IsInt(t)
    ensures Fold(m, t) == Fold(n, t) <==> m % Pow2(Width(t)) == n % Pow2(Width(t))
  {
    NumberInside(Wrap(m, Width(t)), t);
    NumberInside(Wrap(n, Width(t)), t);
  }

  lemma NearEqual(m: int, n: int, p: int)
    requires p > 0 && m % p == n % p && m - n < p && n - m < p
    ensures m == n
  {
    assert m == (m / p) * p + m % p && n == (n / p) * p + n % p;
    var q := m / p - n / p;
    assert m - n == q * p;
    FactorZero(q, p);
  }

  lemma EqualExact(c: CmpOp, v: Ty, w: Ty, t: Ty)
    requires IsInt(v) && IsInt(w) && IsInt(t) && !Ordering(c)
    ensures Agree(c, v, w, t) <==> Close(v, w, t)
  {
    if Close(v, w, t) {
      forall m: int, n: int | InType(m, v) && InType(n, w)
        ensures Holds(c, m, n) == Holds(c, Fold(m, t), Fold(n, t))
      {
        Range(m, v);
        Range(n, w);
        FoldEqual(m, n, t);
        if Fold(m, t) == Fold(n, t) { NearEqual(m, n, Pow2(Width(t))); }
      }
    } else if Hi(v) - Lo(w) >= Pow2(Width(t)) {
      FarApart(c, v, w, t);
    } else {
      FarApart(Flip(c), w, v, t);
      FlipAgree(c, v, w, t);
    }
  }

  lemma FarApart(c: CmpOp, v: Ty, w: Ty, t: Ty)
    requires IsInt(v) && IsInt(w) && IsInt(t) && !Ordering(c) && Hi(v) - Lo(w) >= Pow2(Width(t))
    ensures !Agree(c, v, w, t)
  {
    var p := Pow2(Width(t));
    var m := if Hi(v) <= Hi(w) + p then Hi(v) else Hi(w) + p;
    Range(m, v);
    Range(m - p, w);
    ModShift(m - p, p);
    FoldEqual(m, m - p, t);
    assert Holds(c, m, m - p) != Holds(c, Fold(m, t), Fold(m - p, t));
  }

  lemma ModShift(n: int, p: int)
    requires p > 0
    ensures (n + p) % p == n % p
  {
    ModUnique(n + p, n / p + 1, n % p, p);
  }

  // ----- the exact condition -----

  /** Dropping the casts of both operands leaves the comparison as it was, for all values, exactly when the type
      of the comparison contains the types that C sees; equality tolerates more: numbers of these types must
      only be less than the number of its values apart. */
  lemma CompareExact(d: DataModel, c: CmpOp, a: Side, b: Side, t: Ty, x: nat, y: nat)
    requires ModelOk(d) && SideOk(a, t) && SideOk(b, t) && t.size < d.int_ && (Ordering(c) ==> c.signed == t.signed)
    requires x != y
    ensures var v, w := BareType(d, a, t), BareType(d, b, t);
            KeptByC(d, Comparison(c, a, b, t, x, y)) <==>
            if Ordering(c) then Contains(t, v) && Contains(t, w) else Close(v, w, t)
  {
    var v, w := BareType(d, a, t), BareType(d, b, t);
    KeptAgree(d, c, a, b, t, x, y);
    if Ordering(c) { OrderExact(c, v, w, t); } else { EqualExact(c, v, w, t); }
  }
}
