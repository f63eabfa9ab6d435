/** What C computes from an expression that has been legalized and printed without the casts it performs itself. */
module PrintedValues {
  import opened TwosComplement
  import opened Expressions
  import opened Legalization
  import opened CVerifier
  import opened CastElision
  import opened CEvaluation
  import opened ElisionSound
  import opened ElisionExactness

  // ----- a condition on the expression itself -----

  /** A variable or something read from memory. */
  predicate IsRead(e: Ex) { e.Var? || (e.Node1? && e.f.Deref?) || (e.Node2? && e.g.Subscript?) }

  predicate Narrow(d: DataModel, e: Ex) { e.ty.Int? && e.ty.size < d.int_ }

  /** Comparisons and shift counts below `int` read their operands; no arithmetic, cast or immediate is among
      them, and an ordering has the sign of its operands. */
  predicate SettledNode(d: DataModel, e: Ex) {
    match e
    case Node2(Compare(c), _, l, r) =>
      && (Narrow(d, l) ==> IsRead(l) && (Ordering(c) ==> Sign(l.ty) == c.signed))
      && (Narrow(d, r) ==> IsRead(r))
      && (l.ty.Ptr? && CmpSigned(c) ==> l.ty.size >= d.int_)
    case Node2(Bin(op), _, _, r) => IsShift(op) && Narrow(d, r) ==> IsRead(r)
    case _ => true
  }

  predicate Settled(d: DataModel, e: Ex)
    decreases e, 1
  {
    SettledNode(d, e) && KidsSettled(d, e)
  }

  predicate KidsSettled(d: DataModel, e: Ex)
    decreases e, 0
  {
    match e
    case Node1(_, _, x) => Settled(d, x)
    case Node2(_, _, l, r) => Settled(d, l) && Settled(d, r)
    case _ => true
  }

  lemma CastSettled(d: DataModel, e: Ex, t: Ty)
    requires WellTyped(e) && Convertible(e.ty, t) && Settled(d, e)
    ensures Settled(d, EmitCast(e, t)) && SettledNode(d, EmitCast(e, t))
  {}

  lemma LocalRead(s: Stage, d: DataModel, e: Ex)
    requires ModelOk(d) && WellTyped(e) && IsRead(e)
    ensures IsRead(Local(s, d, e))
  {}

  lemma ReadStays(s: Stage, d: DataModel, e: Ex)
    requires ModelOk(d) && WellTyped(e) && IsRead(e)
    ensures IsRead(Rewrite(s, d, e))
  {
    match e
    case Node1(f, t, x) => LocalRead(s, d, Node1(f, t, Rewrite(s, d, x)));
    case Node2(g, t, l, r) => LocalRead(s, d, Node2(g, t, Rewrite(s, d, l), Rewrite(s, d, r)));
    case _ => LocalRead(s, d, e);
  }

  lemma AdaptSettled(d: DataModel, e: Ex)
    requires ModelOk(d) && WellTyped(e) && Settled(d, e)
    ensures Settled(d, Adapt(d, e))
  {
    var int_, ptr := IntTy(d), Ptr(d.pointer);
    match e
    case Addr(x, t) => if t != ptr { CastSettled(d, Addr(x, ptr), t); }
    case Null(t) => if t != ptr { CastSettled(d, Null(ptr), t); }
    case Node1(Un(_), t, x) =>
      if t.size < d.int_ {
        CastSettled(d, x, int_);
        CastSettled(d, Node1(e.f, int_, EmitCast(x, int_)), t);
      }
    case Node1(Deref(_), t, x) => CastSettled(d, x, ptr);
    case Node2(_, _, _, _) => AdaptSettled2(d, e);
    case _ =>
  }

  lemma AdaptSettled2(d: DataModel, e: Ex)
    requires ModelOk(d) && WellTyped(e) && Settled(d, e) && e.Node2?
    ensures Settled(d, Adapt(d, e))
  {
    var int_, ptr, t, l, r := IntTy(d), Ptr(d.pointer), e.ty, e.l, e.r;
    match e.g
    case Bin(op) =>
      if t.size < d.int_ {
        CastSettled(d, l, int_);
        if !IsShift(op) { CastSettled(d, r, int_); }
        CastSettled(d, PromotedBin(d, e), t);
      }
    case Compare(c) =>
      if l.ty.Ptr? && CmpSigned(c) {
        CastSettled(d, l, Int(l.ty.size, true));
        CastSettled(d, r, Int(l.ty.size, true));
      }
    case PtrAdd(_, _, _) =>
      if t != ptr {
        CastSettled(d, l, Resized(d, l.ty));
        CastSettled(d, r, Resized(d, r.ty));
        CastSettled(d, Node2(e.g, ptr, EmitCast(l, Resized(d, l.ty)), EmitCast(r, Resized(d, r.ty))), t);
      }
    case PtrDiff(_) =>
      if l.ty != ptr {
        CastSettled(d, l, ptr);
        CastSettled(d, r, ptr);
        CastSettled(d, Node2(e.g, Int(d.pointer, true), EmitCast(l, ptr), EmitCast(r, ptr)), t);
      }
    case Subscript(_) => CastSettled(d, l, ptr);
  }

  lemma RepresentSettled(d: DataModel, e: Ex)
    requires ModelOk(d) && WellTyped(e) && Settled(d, e)
    ensures Settled(d, Represent(d, e))
  {
    match e
    case Imm(v, t) =>
      if t.size !in d.wide {
        var n := if t.size in d.narrow then d.int_ else RequiredSize(d, v, t);
        if n in d.wide { CastSettled(d, Imm(Wrap(v, 8 * n), Int(n, true)), t); }
      }
    case Node1(Cast(BoolExtend), t, x) => if t != IntTy(d) { CastSettled(d, Node1(e.f, IntTy(d), x), t); }
    case _ =>
  }

  lemma MatchSettled(d: DataModel, e: Ex)
    requires ModelOk(d) && WellTyped(e) && Settled(d, e)
    ensures Settled(d, MatchSigns(e))
  {
    match e
    case Node1(Cast(k), t, x) =>
      if k == SignExtend || k == ZeroExtend { CastSettled(d, x, Resigned(x.ty, k == SignExtend)); }
    case Node2(Bin(op), t, l, r) =>
      var n := Resigned(t, Signed(op));
      CastSettled(d, l, n);
      if !IsShift(op) { CastSettled(d, r, n); }
      CastSettled(d, ResignedBin(e), t);
    case Node2(Compare(c), t, l, r) =>
      if Ordering(c) {
        CastSettled(d, l, Resigned(l.ty, c.signed));
        CastSettled(d, r, Resigned(l.ty, c.signed));
      }
    case _ =>
  }

  lemma LocalSettled(s: Stage, d: DataModel, e: Ex)
    requires ModelOk(d) && WellTyped(e) && Settled(d, e)
    ensures Settled(d, Local(s, d, e))
  {
    match s
    case Adapting => AdaptSettled(d, e);
    case Representing => RepresentSettled(d, e);
    case Matching => MatchSettled(d, e);
  }

  lemma {:induction false} RewriteSettled(s: Stage, d: DataModel, e: Ex)
    requires ModelOk(d) && WellTyped(e) && Settled(d, e)
    ensures Settled(d, Rewrite(s, d, e))
    decreases e
  {
    match e
    case Node1(f, t, x) =>
      RewriteSettled(s, d, x);
      LocalSettled(s, d, Node1(f, t, Rewrite(s, d, x)));
    case Node2(g, t, l, r) =>
      RewriteSettled(s, d, l);
      RewriteSettled(s, d, r);
      if IsRead(l) { ReadStays(s, d, l); }
      if IsRead(r) { ReadStays(s, d, r); }
      LocalSettled(s, d, Node2(g, t, Rewrite(s, d, l), Rewrite(s, d, r)));
    case _ => LocalSettled(s, d, e);
  }

  lemma {:induction false} SettledFits(d: DataModel, e: Ex)
    requires WellTyped(e) && Follows(d, Promotions, e) && Settled(d, e)
    ensures AllFit(d, e)
  {
    KidFollows(d, Promotions, e);
    match e
    case Node1(_, _, x) => SettledFits(d, x);
    case Node2(_, _, l, r) =>
      SettledFits(d, l);
      SettledFits(d, r);
      assert Fine(d, Promotions, e);
    case _ =>
  }

  /** Both passes together, under conditions on the expression itself: what C computes from the printed text is
      the value of the expression. */
  lemma PrintedValue(d: DataModel, e: Ex, env: Env)
    requires ModelOk(d) && WellTyped(e) && AllAdaptable(d, e) && Follows(d, Standard, e) && Settled(d, e)
    ensures CTyped(d, Elide(d, Legalize(d, e))) && CEval(d, Elide(d, Legalize(d, e)), env) == Eval(e, env)
  {
    var adapted := Rewrite(Adapting, d, e);
    RewriteSettled(Adapting, d, e);
    RewriteSettled(Representing, d, adapted);
    RewriteSettled(Matching, d, Rewrite(Representing, d, adapted));
    LegalizeAccepted(d, e);
    SettledFits(d, Legalize(d, e));
    LegalizeThenElide(d, e, env);
  }

  // ----- a sum below `int` -----

  /** An unsigned type below `int`. */
  predicate Small(d: DataModel, t: Ty) { ModelOk(d) && IsInt(t) && !t.signed && t.size < d.int_ }

  function SmallSum(t: Ty): Ex { Node2(Bin(Add), t, Var(0, t), Var(1, t)) }

  /** Whether the sum of two small numbers equals a third one. */
  function SumIs(t: Ty): Ex { Node2(Compare(Eq), Bool, SmallSum(t), Var(2, t)) }

  function NumberAt(i: nat, t: Ty, env: Env): nat { Wrap(env.variables(i), Width(t)) }

  /** The verifier accepts it, but promotion leaves a truncation that is then dropped: C compares a sum that
      has not wrapped around. */
  lemma PrintedSum(d: DataModel, t: Ty, env: Env)
    requires Small(d, t)
    ensures WellTyped(SumIs(t)) && AllAdaptable(d, SumIs(t)) && Accepted(d, Legalize(d, SumIs(t)))
    ensures CTyped(d, Elide(d, Legalize(d, SumIs(t))))
    ensures Eval(SumIs(t), env)
        == Truth(Wrap(NumberAt(0, t, env) + NumberAt(1, t, env), Width(t)) == NumberAt(2, t, env))
    ensures CEval(d, Elide(d, Legalize(d, SumIs(t))), env)
         == Truth(NumberAt(0, t, env) + NumberAt(1, t, env) == NumberAt(2, t, env))
  {
    SumAccepted(d, t);
    SumPrinted(d, t);
    SumMeant(t, env);
    SumComputed(d, t, env);
  }

  function WideSum(d: DataModel, t: Ty): Ex {
    Node2(Bin(Add), IntTy(d), Node1(Cast(ZeroExtend), IntTy(d), Var(0, t)),
        Node1(Cast(ZeroExtend), IntTy(d), Var(1, t)))
  }

  function BareSum(d: DataModel, t: Ty): Ex {
    Node2(Compare(Eq), Bool, Node2(Bin(Add), IntTy(d), Var(0, t), Var(1, t)), Var(2, t))
  }

  lemma SumAccepted(d: DataModel, t: Ty)
    requires Small(d, t)
    ensures WellTyped(SumIs(t)) && AllAdaptable(d, SumIs(t)) && Accepted(d, Legalize(d, SumIs(t)))
  {
    var sum := SmallSum(t);
    SumTyped(d, t);
    assert AllAdaptable(d, sum.l) && AllAdaptable(d, sum.r);
    assert AllAdaptable(d, sum) && AllAdaptable(d, Var(2, t));
    assert Follows(d, Standard, sum.l) && Follows(d, Standard, sum.r) && Follows(d, Standard, Var(2, t));
    NodeFollows(d, Standard, sum);
    NodeFollows(d, Standard, SumIs(t));
    LegalizeAccepted(d, SumIs(t));
  }

  function CutSum(d: DataModel, t: Ty): Ex { Node1(Cast(Truncate), t, WideSum(d, t)) }

  lemma SumTyped(d: DataModel, t: Ty)
    requires Small(d, t)
    ensures WellTyped(SmallSum(t)) && WellTyped(SumIs(t)) && WellTyped(WideSum(d, t)) && WellTyped(CutSum(d, t))
    ensures WellTyped(Node2(Compare(Eq), Bool, CutSum(d, t), Var(2, t)))
  {
    assert WellTyped(WideSum(d, t).l) && WellTyped(WideSum(d, t).r);
  }

  lemma SumAdapted(d: DataModel, t: Ty)
    requires Small(d, t)
    ensures WellTyped(SumIs(t))
    ensures Rewrite(Adapting, d, SumIs(t)) == Node2(Compare(Eq), Bool, CutSum(d, t), Var(2, t))
  {
    SumTyped(d, t);
    assert Rewrite(Adapting, d, Var(0, t)) == Var(0, t) && Rewrite(Adapting, d, Var(1, t)) == Var(1, t);
    assert Adapt(d, SmallSum(t)) == CutSum(d, t);
    assert Rewrite(Adapting, d, SmallSum(t)) == CutSum(d, t);
  }

  /** The later stages find nothing to do. */
  lemma ExtensionStays(s: Stage, d: DataModel, t: Ty, x: nat)
    requires Small(d, t) && !s.Adapting?
    ensures var e := Node1(Cast(ZeroExtend), IntTy(d), Var(x, t)); WellTyped(e) && Rewrite(s, d, e) == e
  {
    assert Rewrite(s, d, Var(x, t)) == Var(x, t);
  }

  lemma SumStays(s: Stage, d: DataModel, t: Ty)
    requires Small(d, t) && !s.Adapting?
    ensures var e := Node2(Compare(Eq), Bool, CutSum(d, t), Var(2, t)); WellTyped(e) && Rewrite(s, d, e) == e
  {
    SumTyped(d, t);
    ExtensionStays(s, d, t, 0);
    ExtensionStays(s, d, t, 1);
    assert Local(s, d, WideSum(d, t)) == WideSum(d, t);
    assert Rewrite(s, d, WideSum(d, t)) == WideSum(d, t);
    assert Rewrite(s, d, CutSum(d, t)) == CutSum(d, t);
    assert Rewrite(s, d, Var(2, t)) == Var(2, t);
  }

  lemma SumLegal(d: DataModel, t: Ty)
    requires Small(d, t)
    ensures WellTyped(SumIs(t))
    ensures Legalize(d, SumIs(t)) == Node2(Compare(Eq), Bool, CutSum(d, t), Var(2, t))
  {
    SumAdapted(d, t);
    SumStays(Representing, d, t);
    SumStays(Matching, d, t);
  }

  lemma SumPrinted(d: DataModel, t: Ty)
    requires Small(d, t)
    ensures WellTyped(SumIs(t)) && Elide(d, Legalize(d, SumIs(t))) == BareSum(d, t) && CTyped(d, BareSum(d, t))
    ensures CType(d, BareSum(d, t).l) == IntTy(d)
  {
    SumLegal(d, t);
    CommonCases(d.int_, t, t);
    CommonCases(d.int_, t, IntTy(d));
    CommonCases(d.int_, IntTy(d), t);
    CommonCases(d.int_, IntTy(d), IntTy(d));
    assert Elide(d, WideSum(d, t)) == BareSum(d, t).l;
  }

  lemma SumMeant(t: Ty, env: Env)
    requires IsInt(t)
    ensures WellTyped(SumIs(t))
    ensures Eval(SumIs(t), env)
        == Truth(Wrap(NumberAt(0, t, env) + NumberAt(1, t, env), Width(t)) == NumberAt(2, t, env))
  {
    var e, x, y := SmallSum(t), NumberAt(0, t, env), NumberAt(1, t, env);
    assert WellTyped(e) && Eval(e.l, env) == x && Eval(e.r, env) == y;
    assert Eval(e, env) == Apply(Add, x, y, Width(t));
    AddMeant(x, y, Width(t));
    assert Eval(Var(2, t), env) == NumberAt(2, t, env);
  }

  lemma AddMeant(x: nat, y: nat, w: nat)
    requires w > 0
    ensures Apply(Add, x, y, w) == Wrap(x + y, w)
  {
    assert View(x, w, false) == x && View(y, w, false) == y;
  }

  /** Small numbers and their sums are the same numbers in `int`. */
  lemma SumFits(d: DataModel, t: Ty, n: nat)
    requires Small(d, t) && n < 2 * Pow2(Width(t))
    ensures Wrap(n, 8 * d.int_) == n && View(n, 8 * d.int_, true) == n
  {
    assert Pow2(Width(t) + 1) == 2 * Pow2(Width(t));
    Pow2Monotone(Width(t) + 1, 8 * d.int_ - 1);
    Pow2Monotone(8 * d.int_ - 1, 8 * d.int_);
    WrapSmall(n, 8 * d.int_);
  }

  lemma AddSmall(d: DataModel, t: Ty, x: nat, y: nat)
    requires Small(d, t) && x < Pow2(Width(t)) && y < Pow2(Width(t))
    ensures Apply(Add, As(x, t, IntTy(d)), As(y, t, IntTy(d)), Width(IntTy(d))) == x + y
  {
    SumFits(d, t, x);
    SumFits(d, t, y);
    SumFits(d, t, x + y);
    assert As(x, t, IntTy(d)) == x && As(y, t, IntTy(d)) == y;
    AddMeant(x, y, Width(IntTy(d)));
  }

  lemma WideComputed(d: DataModel, t: Ty, env: Env)
    requires Small(d, t) && CTyped(d, BareSum(d, t).l)
    ensures CEval(d, BareSum(d, t).l, env) == NumberAt(0, t, env) + NumberAt(1, t, env) < 2 * Pow2(Width(t))
  {
    var sum, x, y := BareSum(d, t).l, NumberAt(0, t, env), NumberAt(1, t, env);
    AddSmall(d, t, x, y);
    CommonCases(d.int_, t, t);
    BinValue(d, Add, IntTy(d), t, t, x, y, env);
    NodeValue(d, Bin(Add), IntTy(d), sum.l, sum.r, env);
  }

  lemma SumComputed(d: DataModel, t: Ty, env: Env)
    requires Small(d, t) && CTyped(d, BareSum(d, t)) && CType(d, BareSum(d, t).l) == IntTy(d)
    ensures CEval(d, BareSum(d, t), env) == Truth(NumberAt(0, t, env) + NumberAt(1, t, env) == NumberAt(2, t, env))
  {
    var n, z := NumberAt(0, t, env) + NumberAt(1, t, env), NumberAt(2, t, env);
    WideComputed(d, t, env);
    SumFits(d, t, z);
    SumFits(d, t, n);
    CommonCases(d.int_, IntTy(d), t);
    NodeValue(d, Compare(Eq), Bool, BareSum(d, t).l, Var(2, t), env);
    CompareValue(d, Eq, IntTy(d), t, n, z, env);
  }

  // ----- a negative immediate below `int` -----

  /** A signed standard type below `int`, and the bits of a negative number of that type. */
  predicate Negative(d: DataModel, t: Ty, v: nat) {
    && ModelOk(d) && IsInt(t) && t.signed && t.size in d.narrow && t.size !in d.wide
    && Half(Width(t)) <= v < Pow2(Width(t))
  }

  function EqualsImmediate(t: Ty, v: nat, x: nat): Ex { Node2(Compare(Eq), Bool, Var(x, t), Imm(v, t)) }

  /** Whether a variable equals a negative immediate: the immediate is written as a positive one of type `int`,
      whose cast is then dropped, so that C finds them never equal. */
  lemma NegativeImmediate(d: DataModel, t: Ty, v: nat, x: nat, env: Env)
    requires Negative(d, t, v)
    ensures WellTyped(EqualsImmediate(t, v, x)) && Accepted(d, Legalize(d, EqualsImmediate(t, v, x)))
    ensures CTyped(d, Elide(d, Legalize(d, EqualsImmediate(t, v, x))))
    ensures Eval(EqualsImmediate(t, v, x), env) == Truth(NumberAt(x, t, env) == v)
    ensures CEval(d, Elide(d, Legalize(d, EqualsImmediate(t, v, x))), env) == Truth(false)
  {
    ImmediateAccepted(d, t, v, x);
    ImmediatePrinted(d, t, v, x);
    ImmediateComputed(d, t, v, x, env);
  }

  lemma ImmediateAccepted(d: DataModel, t: Ty, v: nat, x: nat)
    requires Negative(d, t, v)
    ensures WellTyped(EqualsImmediate(t, v, x)) && Accepted(d, Legalize(d, EqualsImmediate(t, v, x)))
  {
    var e := EqualsImmediate(t, v, x);
    assert Follows(d, Standard, e.l) && Follows(d, Standard, e.r);
    NodeFollows(d, Standard, e);
    LegalizeAccepted(d, e);
  }

  function WrittenImmediate(d: DataModel, t: Ty, v: nat): Ex { Node1(Cast(Truncate), t, Imm(v, IntTy(d))) }

  lemma ImmediateRewritten(d: DataModel, t: Ty, v: nat)
    requires Negative(d, t, v)
    ensures t.size < d.int_ && WellTyped(WrittenImmediate(d, t, v))
    ensures Rewrite(Adapting, d, Imm(v, t)) == Imm(v, t)
    ensures Rewrite(Representing, d, Imm(v, t)) == WrittenImmediate(d, t, v)
    ensures Rewrite(Matching, d, WrittenImmediate(d, t, v)) == WrittenImmediate(d, t, v)
  {
    Pow2Monotone(Width(t), 8 * d.int_);
    WrapSmall(v, 8 * d.int_);
    assert WellTyped(Imm(v, IntTy(d))) && Rewrite(Matching, d, Imm(v, IntTy(d))) == Imm(v, IntTy(d));
  }

  lemma ImmediatePrinted(d: DataModel, t: Ty, v: nat, x: nat)
    requires Negative(d, t, v)
    ensures WellTyped(EqualsImmediate(t, v, x)) && t.size < d.int_
    ensures Elide(d, Legalize(d, EqualsImmediate(t, v, x))) == Node2(Compare(Eq), Bool, Var(x, t), Imm(v, IntTy(d)))
  {
    var e, w := EqualsImmediate(t, v, x), WrittenImmediate(d, t, v);
    ImmediateRewritten(d, t, v);
    assert Rewrite(Adapting, d, Var(x, t)) == Var(x, t) && Rewrite(Adapting, d, e) == e;
    assert Rewrite(Representing, d, Var(x, t)) == Var(x, t);
    var f := Node2(Compare(Eq), Bool, Var(x, t), w);
    assert WellTyped(f) && Rewrite(Representing, d, e) == f;
    assert Rewrite(Matching, d, Var(x, t)) == Var(x, t) && Rewrite(Matching, d, f) == f;
    CommonCases(d.int_, t, t);
    CommonCases(d.int_, t, IntTy(d));
    assert !DropsLeft(d, f.l, f.r) && DropsRight(d, f.l, f.r);
  }

  lemma ImmediateComputed(d: DataModel, t: Ty, v: nat, x: nat, env: Env)
    requires Negative(d, t, v) && t.size < d.int_
    ensures WellTyped(EqualsImmediate(t, v, x))
    ensures Eval(EqualsImmediate(t, v, x), env) == Truth(NumberAt(x, t, env) == v)
    ensures var e := Node2(Compare(Eq), Bool, Var(x, t), Imm(v, IntTy(d)));
            CTyped(d, e) && CEval(d, e, env) == Truth(false)
  {
    var a, n := NumberAt(x, t, env), IntTy(d);
    assert Eval(Var(x, t), env) == a && WellTyped(Imm(v, t));
    HalfTwice(Width(t));
    Pow2Monotone(Width(t), Width(n) - 1);
    Pow2Monotone(Width(n) - 1, Width(n));
    CommonCases(d.int_, t, n);
    ContainedNumber(a, t, n);
    WrapSmall(v, Width(n));
    assert Number(v, n) == v && As(v, n, n) == v;
    NodeValue(d, Compare(Eq), Bool, Var(x, t), Imm(v, n), env);
    CompareValue(d, Eq, t, n, a, v, env);
  }
}
