/** The exact condition under which adapting an operation preserves its value. */
module LegalizationExactness {
  import opened TwosComplement
  import opened Expressions
  import opened Legalization

  /** The operands are different variables, so that they can have any value. */
  predicate OfVariables(e: Ex) {
    match e
    case Node1(_, _, x) => x.Var?
    case Node2(_, _, l, r) => l.Var? && r.Var? && l.id != r.id
    case _ => true
  }

  /** An element is not larger than the target's address space. */
  predicate ElementFits(d: DataModel, e: Ex) {
    e.Node2? && e.g.PtrDiff? ==> e.g.elem <= Pow2(8 * d.pointer)
  }

  ghost predicate Preserved(d: DataModel, e: Ex)
    requires ModelOk(d) && WellTyped(e)
  {
    forall env: Env :: Eval(Adapt(d, e), env) == Eval(e, env)
  }

  /** Adapting an operation preserves its value on all operands exactly when it is `Adaptable`: its sign
      matches if it matters, and its pointers fit. */
  lemma AdaptExact(d: DataModel, e: Ex)
    requires ModelOk(d) && WellTyped(e) && OfVariables(e) && ElementFits(d, e)
    ensures Preserved(d, e) <==> Adaptable(d, e)
  {
    if Adaptable(d, e) {
      forall env: Env ensures Eval(Adapt(d, e), env) == Eval(e, env) { AdaptValue(d, e, env); }
    } else if e.Node2? && e.g.Bin? {
      var env := BadOperands(d, e);
      assert !Preserved(d, e);
    } else if e.Node2? {
      var env := BadPointers(d, e);
      assert !Preserved(d, e);
    } else {
      var env := BadPointer(d, e);
      assert !Preserved(d, e);
    }
  }

  function Operands(x: nat, a: nat, b: nat): Env { Env(i => if i == x then a else b, _ => 0, _ => 0) }

  lemma OperandValues(e: Ex, a: nat, b: nat)
    requires WellTyped(e) && OfVariables(e) && e.Node2? && a < Pow2(Width(e.l.ty)) && b < Pow2(Width(e.r.ty))
    ensures Eval(e.l, Operands(e.l.id, a, b)) == a && Eval(e.r, Operands(e.l.id, a, b)) == b
  {
    WrapSmall(a, Width(e.l.ty));
    WrapSmall(b, Width(e.r.ty));
  }

  lemma BadOperands(d: DataModel, e: Ex) returns (env: Env)
    requires ModelOk(d) && WellTyped(e) && OfVariables(e) && e.Node2? && e.g.Bin? && !Adaptable(d, e)
    ensures Eval(Adapt(d, e), env) != Eval(e, env)
  {
    var op, w, v, sg := e.g.op, Width(e.ty), Width(IntTy(d)), e.ty.signed;
    if IsShift(op) {
      env := Operands(e.l.id, Half(w), 1);
      OneShift(e.r.ty);
      assert Half(w) < Pow2(w);
      OperandValues(e, Half(w), 1);
      PromotedValue(d, e, env);
      MismatchAt(op, w, v, sg, 1);
    } else {
      PromotionExact(op, w, v, sg);
      var a: nat, b: int :| InRange(op, a, b, w) && Promoted(op, a, b, w, v, sg) != Apply(op, a, b, w);
      env := Operands(e.l.id, a, b);
      OperandValues(e, a, b);
      PromotedValue(d, e, env);
    }
  }

  lemma OneShift(t: Ty)
    requires IsInt(t)
    ensures 1 < Pow2(Width(t)) && Number(1, t) == 1
  {
    Pow2Monotone(1, Width(t) - 1);
    assert Pow2(1) == 2 * Pow2(0);
  }

  // ----- pointers that do not fit -----

  /** The first address beyond the target's address space. */
  function Beyond(d: DataModel): nat { Pow2(8 * d.pointer) }

  lemma BeyondIsCut(d: DataModel, s: nat)
    requires ModelOk(d) && s > d.pointer
    ensures 0 < Beyond(d) < Pow2(8 * s) && Wrap(Beyond(d), 8 * d.pointer) == 0 && Wrap(Beyond(d), 8 * s) == Beyond(d)
  {
    assert Pow2(8 * d.pointer + 1) == 2 * Pow2(8 * d.pointer);
    Pow2Monotone(8 * d.pointer + 1, 8 * s);
    ModUnique(Beyond(d), 1, 0, Beyond(d));
    WrapSmall(Beyond(d), 8 * s);
  }

  lemma CutToNull(d: DataModel, x: Ex, env: Env)
    requires ModelOk(d) && WellTyped(x) && IsPtr(x.ty) && x.ty.size > d.pointer && Eval(x, env) == Beyond(d)
    ensures Eval(EmitCast(x, Ptr(d.pointer)), env) == 0
  {
    BeyondIsCut(d, x.ty.size);
    EmitCastValue(x, Ptr(d.pointer), env);
    CutIsConvert(Beyond(d), Width(x.ty), 8 * d.pointer, false);
  }

  lemma NullStays(t: Ty, u: Ty)
    requires IsScalar(t) && IsScalar(u)
    ensures Convert(0, Width(t), Width(u), Sign(t)) == 0 && Number(0, t) == 0
  {
    WrapSmall(0, Width(u));
  }

  /** Memory that holds a one at one address only. */
  function OneAt(address: int): int -> nat { i => if i == address then 1 else 0 }

  lemma LoadOne(env: Env, address: int, other: int, t: Ty)
    requires IsScalar(t) && env.memory == OneAt(address) && other != address
    ensures Load(env, address, t) == 1 && Load(env, other, t) == 0
  {
    Pow2Monotone(1, Width(t));
    assert Pow2(1) == 2 * Pow2(0);
    WrapSmall(1, Width(t));
    WrapSmall(0, Width(t));
  }

  lemma BadPointer(d: DataModel, e: Ex) returns (env: Env)
    requires ModelOk(d) && WellTyped(e) && OfVariables(e) && !e.Node2? && !Adaptable(d, e)
    ensures Eval(Adapt(d, e), env) != Eval(e, env)
  {
    if e.Addr? {
      env := Env(_ => 0, _ => Beyond(d), _ => 0);
      var near := Addr(e.id, Ptr(d.pointer));
      BeyondIsCut(d, e.ty.size);
      EmitCastValue(near, e.ty, env);
      NullStays(near.ty, e.ty);
    } else {
      env := Env(_ => Beyond(d), _ => 0, OneAt(Beyond(d) + e.f.offset));
      BeyondIsCut(d, e.e.ty.size);
      CutToNull(d, e.e, env);
      LoadOne(env, Beyond(d) + e.f.offset, e.f.offset, e.ty);
    }
  }

  lemma BadPointers(d: DataModel, e: Ex) returns (env: Env)
    requires ModelOk(d) && WellTyped(e) && OfVariables(e) && e.Node2? && !e.g.Bin? && !Adaptable(d, e)
    requires ElementFits(d, e)
    ensures Eval(Adapt(d, e), env) != Eval(e, env)
  {
    var far := Beyond(d);
    match e.g
    case PtrAdd(_, _, left) => env := BadAddition(d, e);
    case PtrDiff(elem) => env := BadDifference(d, e);
    case Subscript(elem) =>
      env := Operands(e.l.id, far, 0).(memory := OneAt(far));
      BeyondIsCut(d, e.l.ty.size);
      WrapSmall(0, Width(e.r.ty));
      CutToNull(d, e.l, env);
      NullStays(e.r.ty, e.r.ty);
      LoadOne(env, far, 0, e.ty);
  }

  lemma BadAddition(d: DataModel, e: Ex) returns (env: Env)
    requires ModelOk(d) && WellTyped(e) && OfVariables(e) && e.Node2? && e.g.PtrAdd? && !Adaptable(d, e)
    ensures Eval(Adapt(d, e), env) != Eval(e, env)
  {
    var far, ptr := Beyond(d), Ptr(d.pointer);
    var (p, i) := if e.g.left then (e.l, e.r) else (e.r, e.l);
    env := Operands(p.id, far, 0);
    BeyondIsCut(d, e.ty.size);
    WrapSmall(0, Width(i.ty));
    WrapSmall(0, Width(ptr));
    CutToNull(d, p, env);
    EmitCastValue(i, Resized(d, i.ty), env);
    NullStays(i.ty, Resized(d, i.ty));
    NullStays(Resized(d, i.ty), i.ty);
    var wide := Node2(e.g, ptr, EmitCast(e.l, Resized(d, e.l.ty)), EmitCast(e.r, Resized(d, e.r.ty)));
    EmitCastValue(wide, e.ty, env);
    NullStays(ptr, e.ty);
    assert Eval(wide, env) == 0;
    assert Eval(e, env) == Wrap(Moved(e.g.sub, e.g.elem, far, 0), Width(e.ty));
  }

  lemma QuotientPositive(a: nat, b: nat)
    requires 0 < b <= a
    ensures 0 < Divide(a, b) <= a
  {
    assert a / b >= 1;
    assert (a / b) * b <= a;
    FactorZero(b - 1, a / b);
  }

  lemma FarDifference(d: DataModel, e: Ex, env: Env)
    requires ModelOk(d) && WellTyped(e) && e.Node2? && e.g.PtrDiff? && e.l.ty.size > d.pointer && ElementFits(d, e)
    requires Eval(e.l, env) == Beyond(d) && Eval(e.r, env) == 0
    ensures Eval(e, env) > 0
  {
    BeyondIsCut(d, e.l.ty.size);
    QuotientPositive(Beyond(d), e.g.elem);
    WrapSmall(Divide(Beyond(d), e.g.elem), Width(e.ty));
  }

  lemma NullDifference(d: DataModel, e: Ex, env: Env)
    requires ModelOk(d) && WellTyped(e) && e.Node2? && e.g.PtrDiff? && e.l.ty.size > d.pointer
    requires Eval(e.l, env) == Beyond(d) && Eval(e.r, env) == 0
    ensures Eval(Adapt(d, e), env) == 0
  {
    var ptr, n := Ptr(d.pointer), Int(d.pointer, true);
    CutToNull(d, e.l, env);
    EmitCastValue(e.r, ptr, env);
    NullStays(e.r.ty, ptr);
    var wide := Node2(e.g, n, EmitCast(e.l, ptr), EmitCast(e.r, ptr));
    assert Divide(0, e.g.elem) == 0;
    WrapSmall(0, Width(n));
    assert Eval(wide, env) == 0;
    EmitCastValue(wide, e.ty, env);
    NullStays(n, e.ty);
  }

  lemma BadDifference(d: DataModel, e: Ex) returns (env: Env)
    requires ModelOk(d) && WellTyped(e) && OfVariables(e) && e.Node2? && e.g.PtrDiff? && !Adaptable(d, e)
    requires ElementFits(d, e)
    ensures Eval(Adapt(d, e), env) != Eval(e, env)
  {
    env := Operands(e.l.id, Beyond(d), 0);
    BeyondIsCut(d, e.l.ty.size);
    WrapSmall(0, Width(e.r.ty));
    FarDifference(d, e, env);
    NullDifference(d, e, env);
  }
}
