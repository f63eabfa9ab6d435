/** The exact condition under which a cast to a type below `int` may be dropped. */
module ElisionExactness {
  import opened TwosComplement
  import opened Expressions
  import opened Legalization
  import opened CVerifier
  import opened CEvaluation
  import opened ElisionSound

  /** A cast between integer types that extends by the sign of its operand. */
  predicate GoodCast(k: CastKind, s: Ty, t: Ty) {
    IsInt(s) && IsInt(t) && CastOk(k, s, t)
    && (k == SignExtend ==> s.signed) && (k == ZeroExtend ==> !s.signed)
  }

  function CastOf(k: CastKind, t: Ty, x: nat, s: Ty): Ex { Node1(Cast(k), t, Var(x, s)) }

  ghost predicate KeptByC(d: DataModel, e: Ex)
    requires ModelOk(d) && WellTyped(e)
  {
    CTyped(d, Elide(d, e)) && forall env: Env :: CEval(d, Elide(d, e), env) == Eval(e, env)
  }

  function Values(x: nat, a: nat, b: nat): Env { Env(i => if i == x then a else b, _ => 0, _ => 0) }

  lemma KeptWhereElidable(d: DataModel, e: Ex)
    requires ModelOk(d) && Elidable(d, e)
    ensures KeptByC(d, e)
  {
    ElideValue(d, e, Values(0, 0, 0));
    forall env: Env ensures CEval(d, Elide(d, e), env) == Eval(e, env) { ElideValue(d, e, env); }
  }

  predicate Leaf(e: Ex) { e.Var? || (e.Node1? && e.f.Cast? && e.e.Var?) }

  lemma LeafElidable(d: DataModel, e: Ex)
    requires WellTyped(e) && Leaf(e) && Fine(d, Casts, e)
    ensures Elidable(d, e)
  {
    LeafFollows(d, Pointers, e);
    LeafFollows(d, Promotions, e);
    LeafFollows(d, Immediates, e);
    LeafFollows(d, Signs, e);
    LeafFollows(d, Casts, e);
  }

  lemma LeafFollows(d: DataModel, rule: Rule, e: Ex)
    requires WellTyped(e) && Leaf(e) && Fine(d, Casts, e) && rule != Booleans
    ensures Follows(d, rule, e)
  {
    if e.Node1? { assert Follows(d, rule, e.e); }
  }

  /** One operation on variables and casts of variables. */
  lemma FlatElidable(d: DataModel, e: Ex)
    requires WellTyped(e) && e.Node2? && (e.g.Bin? || e.g.Compare?) && Leaf(e.l) && Leaf(e.r)
    requires Fine(d, Casts, e.l) && Fine(d, Casts, e.r) && Fine(d, Promotions, e) && Fine(d, Signs, e) && NodeFits(d, e)
    ensures Elidable(d, e)
  {
    LeafElidable(d, e.l);
    LeafElidable(d, e.r);
    NodeFollows(d, Pointers, e);
    NodeFollows(d, Promotions, e);
    NodeFollows(d, Immediates, e);
    NodeFollows(d, Signs, e);
    NodeFollows(d, Casts, e);
  }

  lemma NodeFollows(d: DataModel, rule: Rule, e: Ex)
    requires WellTyped(e) && e.Node2? && Fine(d, rule, e) && Follows(d, rule, e.l) && Follows(d, rule, e.r)
    ensures Follows(d, rule, e)
  {}

  // ----- numbers of a type -----

  predicate InType(n: int, t: Ty)
    requires IsInt(t)
  {
    if t.signed then 0 <= n + Half(Width(t)) && n < Half(Width(t)) else 0 <= n < Pow2(Width(t))
  }

  lemma NumberOf(n: int, t: Ty)
    requires IsInt(t) && InType(n, t)
    ensures Number(Wrap(n, Width(t)), t) == n
  {
    assert Pow2(Width(t)) == 2 * Half(Width(t));
    if n >= 0 { WrapSmall(n, Width(t)); } else { ModUnique(n, -1, n + Pow2(Width(t)), Pow2(Width(t))); }
  }

  // ----- shift counts -----

  function Shift(op: Op, t: Ty, k: CastKind, s: Ty, u: Ty, x: nat, y: nat): (e: Ex)
    requires IsInt(t) && IsShift(op) && GoodCast(k, s, u)
    ensures WellTyped(e)
  {
    assert WellTyped(CastOf(k, u, y, s));
    Node2(Bin(op), t, Var(x, t), CastOf(k, u, y, s))
  }

  /** A count of an unchanged sign keeps its number exactly when the dropped cast did not cut it. */
  lemma ShiftExact(d: DataModel, op: Op, t: Ty, k: CastKind, s: Ty, u: Ty, x: nat, y: nat)
    requires ModelOk(d) && IsInt(t) && t.size >= d.int_ && IsShift(op) && (SignMatters(op) ==> t.signed == Signed(op))
    requires GoodCast(k, s, u) && u.size < d.int_ && s.signed == u.signed && x != y
    ensures KeptByC(d, Shift(op, t, k, s, u, x, y)) <==> (Contains(IntTy(d), s) ==> s.size <= u.size)
  {
    var e := Shift(op, t, k, s, u, x, y);
    if Contains(IntTy(d), s) ==> s.size <= u.size {
      FlatElidable(d, e);
      KeptWhereElidable(d, e);
    } else {
      CutCount(d, op, t, k, s, u, x, y);
      assert !KeptByC(d, e);
    }
  }

  /** A count that the cast cuts to zero. */
  lemma CutBits(s: Ty, u: Ty)
    requires IsInt(s) && IsInt(u) && s.size > u.size
    ensures var n := Pow2(Width(u)); n < Pow2(Width(s)) && Number(n, s) == n && Wrap(n, Width(u)) == 0
  {
    var n := Pow2(Width(u));
    assert Pow2(Width(u) + 1) == 2 * n;
    Pow2Monotone(Width(u) + 1, Width(s) - 1);
    Pow2Monotone(Width(s) - 1, Width(s));
    ModUnique(n, 1, 0, n);
  }

  /** Shifting a one by such a count. */
  lemma CutCount(d: DataModel, op: Op, t: Ty, k: CastKind, s: Ty, u: Ty, x: nat, y: nat)
    requires ModelOk(d) && IsInt(t) && t.size >= d.int_ && IsShift(op) && (SignMatters(op) ==> t.signed == Signed(op))
    requires GoodCast(k, s, u) && u.size < d.int_ && s.signed == u.signed && x != y
    requires Contains(IntTy(d), s) && s.size > u.size
    ensures var e, env := Shift(op, t, k, s, u, x, y), Values(x, 1, Pow2(Width(u)));
            CTyped(d, Elide(d, e)) && CEval(d, Elide(d, e), env) != Eval(e, env)
  {
    var e := Shift(op, t, k, s, u, x, y);
    assert Elide(d, e) == Node2(Bin(op), t, Var(x, t), Var(y, s));
    CutEval(op, t, k, s, u, x, y);
    FullCount(d, op, t, s, u, x, y);
    Pow2Monotone(1, Width(u));
    ShiftOne(op, Pow2(Width(u)), Width(t));
  }

  lemma CutEval(op: Op, t: Ty, k: CastKind, s: Ty, u: Ty, x: nat, y: nat)
    requires IsInt(t) && IsShift(op) && GoodCast(k, s, u) && s.size > u.size && x != y
    ensures Eval(Shift(op, t, k, s, u, x, y), Values(x, 1, Pow2(Width(u)))) == Apply(op, 1, 0, Width(t))
  {
    var n, env := Pow2(Width(u)), Values(x, 1, Pow2(Width(u)));
    CutBits(s, u);
    Pow2Monotone(1, Width(t));
    WrapSmall(n, Width(s));
    WrapSmall(1, Width(t));
    assert Eval(Var(x, t), env) == 1 && Eval(CastOf(k, u, y, s), env) == 0;
  }

  lemma FullCount(d: DataModel, op: Op, t: Ty, s: Ty, u: Ty, x: nat, y: nat)
    requires ModelOk(d) && IsInt(t) && t.size >= d.int_ && IsShift(op) && (SignMatters(op) ==> t.signed == Signed(op))
    requires IsInt(s) && IsInt(u) && s.size > u.size && x != y
    ensures var bare := Node2(Bin(op), t, Var(x, t), Var(y, s));
            CTyped(d, bare)
            && CEval(d, bare, Values(x, 1, Pow2(Width(u)))) == Apply(op, 1, Pow2(Width(u)), Width(t))
  {
    var n, env := Pow2(Width(u)), Values(x, 1, Pow2(Width(u)));
    CutBits(s, u);
    Pow2Monotone(1, Width(t));
    WrapSmall(n, Width(s));
    WrapSmall(1, Width(t));
    NodeValue(d, Bin(op), t, Var(x, t), Var(y, s), env);
    ShiftValue(d, op, t, t, s, 1, n, env);
    SameType(1, t);
  }

  lemma ShiftOne(op: Op, n: nat, w: nat)
    requires IsShift(op) && n > 0 && w >= 2
    ensures Apply(op, 1, 0, w) == 1 && Apply(op, 1, n, w) != 1
  {
    Pow2Monotone(1, w - 1);
    assert Pow2(1) == 2 * Pow2(0);
    WrapSmall(1, w);
    if op == Shl { LeftByMany(n, w); } else { RightByMany(n, w); }
  }

  lemma LeftByMany(n: nat, w: nat)
    requires n > 0
    ensures Wrap(1 * Pow2(n), w) != 1
  {
    Pow2Monotone(1, n);
    assert Pow2(1) == 2 * Pow2(0);
    if n < w {
      Pow2Monotone(n + 1, w);
      WrapSmall(Pow2(n), w);
    } else {
      Pow2Add(w, n - w);
      ModUnique(Pow2(n), Pow2(n - w), 0, Pow2(w));
    }
  }

  lemma RightByMany(n: nat, w: nat)
    requires n > 0
    ensures Wrap(1 / Pow2(n), w) == 0
  {
    Pow2Monotone(1, n);
    assert Pow2(1) == 2 * Pow2(0);
    ModUnique(1, 0, 1, Pow2(n));
    assert 1 / Pow2(n) == 0;
    WrapSmall(0, w);
  }
}
