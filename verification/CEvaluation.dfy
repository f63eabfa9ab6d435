/** What C computes: the implicit conversions at every operator, and the casts that may be left to them. */
module CEvaluation {
  import opened TwosComplement
  import opened Expressions
  import opened Legalization
  import opened CVerifier
  import opened CastElision

  // ----- expressions of C -----

  /** The type that C gives to an expression; comparisons have type `int`. */
  function CType(d: DataModel, e: Ex): Ty {
    match e
    case Addr(_, _) => Ptr(d.pointer)
    case Node1(Un(_), _, x) => Promote(d.int_, CType(d, x))
    case Node2(Bin(op), _, l, r) =>
      if IsShift(op) then Promote(d.int_, CType(d, l)) else Common(d.int_, CType(d, l), CType(d, r))
    case Node2(Compare(_), _, _, _) => IntTy(d)
    case Node2(PtrAdd(_, _, _), _, _, _) => Ptr(d.pointer)
    case Node2(PtrDiff(_), _, _, _) => Int(d.pointer, true)
    case _ => e.ty
  }

  /** The operands have the types that the operator demands, whatever the declared types are. */
  predicate CTyped(d: DataModel, e: Ex) {
    match e
    case Var(_, t) => t.Bool? || IsScalar(t)
    case Imm(v, t) => IsInt(t) && v < Pow2(Width(t))
    case Addr(_, t) => true
    case Null(t) => IsPtr(t)
    case Node1(f, t, x) => CTyped(d, x) && CTyped1(d, f, t, CType(d, x))
    case Node2(g, _, l, r) => CTyped(d, l) && CTyped(d, r) && CTyped2(g, e.ty, CType(d, l), CType(d, r))
  }

  predicate CTyped1(d: DataModel, f: Op1, t: Ty, tx: Ty) {
    match f
    case Un(_) => IsInt(tx)
    case Cast(_) => IsScalar(t) && (tx.Bool? || IsScalar(tx))
    case Deref(_) => IsScalar(t) && IsPtr(tx)
  }

  predicate CTyped2(g: Op2, t: Ty, tl: Ty, tr: Ty) {
    match g
    case Bin(_) => IsInt(tl) && IsInt(tr)
    case Compare(_) => (IsInt(tl) && IsInt(tr)) || (IsPtr(tl) && IsPtr(tr))
    case PtrAdd(_, elem, left) => elem > 0 && if left then IsPtr(tl) && IsInt(tr) else IsInt(tl) && IsPtr(tr)
    case PtrDiff(elem) => elem > 0 && IsPtr(tl) && IsPtr(tr)
    case Subscript(elem) => elem > 0 && IsScalar(t) && IsPtr(tl) && IsInt(tr)
  }

  lemma CTypes(d: DataModel, e: Ex)
    requires ModelOk(d) && CTyped(d, e)
    ensures CType(d, e).Bool? || IsScalar(CType(d, e))
  {
    if e.Node2? && e.g.Bin? && IsInt(CType(d, e.l)) && IsInt(CType(d, e.r)) {
      CommonCases(d.int_, CType(d, e.l), CType(d, e.r));
    }
  }

  /** Conversion to another type. */
  function As(a: nat, from: Ty, to: Ty): (r: nat)
    requires from.Bool? || IsScalar(from)
    ensures r < Pow2(Width(to))
  {
    Convert(a, Width(from), Width(to), Sign(from))
  }

  /** C has one operator for two operations: the type decides. */
  function COp(op: Op, t: Ty): Op {
    match op
    case SDiv => if Sign(t) then SDiv else UDiv
    case UDiv => if Sign(t) then SDiv else UDiv
    case SRem => if Sign(t) then SRem else URem
    case URem => if Sign(t) then SRem else URem
    case Sar => if Sign(t) then Sar else Shr
    case Shr => if Sign(t) then Sar else Shr
    case _ => op
  }

  /** The evaluation of C: integer promotions of the operand of a unary operator and of both operands of a
      shift, the usual arithmetic conversions of the operands of the others. */
  function CEval(d: DataModel, e: Ex, env: Env): (a: nat)
    requires ModelOk(d) && CTyped(d, e)
  {
    CTypes(d, e);
    match e
    case Var(x, t) => Wrap(env.variables(x), Width(t))
    case Imm(v, _) => v
    case Addr(x, _) => Wrap(env.addresses(x), 8 * d.pointer)
    case Null(_) => 0
    case Node1(f, t, x) => CTypes(d, x); CValue1(d, f, t, CType(d, x), CEval(d, x, env), env)
    case Node2(g, t, l, r) =>
      CTypes(d, l);
      CTypes(d, r);
      CValue2(d, g, t, CType(d, l), CType(d, r), CEval(d, l, env), CEval(d, r, env), env)
  }

  function CValue1(d: DataModel, f: Op1, t: Ty, tx: Ty, a: nat, env: Env): nat
    requires ModelOk(d) && CTyped1(d, f, t, tx)
  {
    match f
    case Un(u) => UnValue(u, As(a, tx, Promote(d.int_, tx)), Width(Promote(d.int_, tx)))
    case Cast(_) => As(a, tx, t)
    case Deref(offset) => Load(env, a + offset, t)
  }

  function CValue2(d: DataModel, g: Op2, t: Ty, tl: Ty, tr: Ty, a: nat, b: nat, env: Env): nat
    requires ModelOk(d) && CTyped2(g, t, tl, tr)
  {
    match g
    case Bin(op) =>
      if IsShift(op) then
        var p, q := Promote(d.int_, tl), Promote(d.int_, tr);
        Apply(COp(op, p), As(a, tl, p), Number(As(b, tr, q), q), Width(p))
      else
        CommonCases(d.int_, tl, tr);
        var c := Common(d.int_, tl, tr);
        Apply(COp(op, c), As(a, tl, c), As(b, tr, c), Width(c))
    case Compare(c) =>
      if IsPtr(tl) then Truth(Holds(c, a, b))
      else
        CommonCases(d.int_, tl, tr);
        var t := Common(d.int_, tl, tr);
        Truth(Holds(c, Number(As(a, tl, t), t), Number(As(b, tr, t), t)))
    case PtrAdd(sub, elem, left) =>
      Wrap(if left then Moved(sub, elem, a, Number(b, tr)) else Moved(sub, elem, b, Number(a, tl)), 8 * d.pointer)
    case PtrDiff(elem) => Wrap(Divide(a - b, elem), 8 * d.pointer)
    case Subscript(elem) => Load(env, a + Number(b, tr) * elem, t)
  }

  // ----- elision -----

  predicate IsIntCast(e: Ex) { e.Node1? && e.f.Cast? && IsInt(e.e.ty) }

  /** The cast of an operand that C promotes on its own. */
  predicate DropsPromoted(d: DataModel, x: Ex) {
    IsIntCast(x) && Promote(d.int_, x.e.ty) == Promote(d.int_, x.ty)
  }

  /** The type of an operand with or without its cast. */
  function Bare(x: Ex, drop: bool): Ty { if drop && x.Node1? then x.e.ty else x.ty }

  predicate DropsLeft(d: DataModel, l: Ex, r: Ex) {
    IsIntCast(l) && Common(d.int_, l.e.ty, r.ty) == Common(d.int_, l.ty, r.ty)
  }

  /** The second cast is tried after the first one has been dropped or kept. */
  predicate DropsRight(d: DataModel, l: Ex, r: Ex) {
    IsIntCast(r) && Common(d.int_, Bare(l, DropsLeft(d, l, r)), r.e.ty) == Common(d.int_, l.ty, r.ty)
  }

  /** Arithmetic, and comparisons of integers. */
  predicate Converts(g: Op2, tl: Ty) { g.Bin? || (g.Compare? && tl.Int?) }

  predicate DropsFirst(d: DataModel, g: Op2, l: Ex, r: Ex) {
    Converts(g, l.ty) && if g.Bin? && IsShift(g.op) then DropsPromoted(d, l) else DropsLeft(d, l, r)
  }

  predicate DropsSecond(d: DataModel, g: Op2, l: Ex, r: Ex) {
    Converts(g, l.ty) && if g.Bin? && IsShift(g.op) then DropsPromoted(d, r) else DropsRight(d, l, r)
  }

  predicate IsCompare(e: Ex) { e.Node2? && e.g.Compare? }

  /** The expression as it is printed, without the casts that were made implicit. */
  function Elide(d: DataModel, e: Ex): Ex
    decreases e
  {
    match e
    case Node1(Un(_), t, x) => Node1(e.f, t, if DropsPromoted(d, x) then Elide(d, x.e) else Elide(d, x))
    case Node1(Cast(BoolExtend), t, x) =>
      if t == IntTy(d) && IsCompare(x) then Elide(d, x) else Node1(e.f, t, Elide(d, x))
    case Node1(f, t, x) => Node1(f, t, Elide(d, x))
    case Node2(g, t, l, r) =>
      Node2(g, t, if DropsFirst(d, g, l, r) then Elide(d, l.e) else Elide(d, l),
            if DropsSecond(d, g, l, r) then Elide(d, r.e) else Elide(d, r))
    case _ => e
  }

  /** Every number of the type `s` is a number of the type `t`. */
  predicate Contains(t: Ty, s: Ty) {
    t.Int? && s.Int? && s.size <= t.size && (s.signed == t.signed || (s.size < t.size && !s.signed))
  }

  /** A dropped cast to a type below `int` has done nothing to the number. */
  predicate DropFits(d: DataModel, x: Ex, drop: bool) {
    drop && x.Node1? && x.ty.Int? && x.ty.size < d.int_ ==> Contains(x.ty, x.e.ty)
  }

  /** Operands of comparisons and shift counts, which may be narrower than `int`. */
  predicate NodeFits(d: DataModel, e: Ex) {
    e.Node2? ==>
      (e.g.Compare? ==> DropFits(d, e.l, DropsFirst(d, e.g, e.l, e.r)))
      && DropFits(d, e.r, DropsSecond(d, e.g, e.l, e.r))
  }

  predicate AllFit(d: DataModel, e: Ex) {
    NodeFits(d, e)
    && (e.Node1? ==> AllFit(d, e.e))
    && (e.Node2? ==> AllFit(d, e.l) && AllFit(d, e.r))
  }

  /** The verifier accepts the expression, and extensions have operands of their sign. */
  predicate Legal(d: DataModel, e: Ex)
    requires WellTyped(e)
  {
    Accepted(d, e) && Follows(d, Casts, e)
  }

  /** The type in which C sees an expression of Clift. */
  function Seen(d: DataModel, e: Ex): Ty { if IsCompare(e) then IntTy(d) else e.ty }

  // ----- conversions -----

  /** The implicit conversion does what the dropped cast did. */
  lemma DroppedCast(x: Ex, env: Env)
    requires WellTyped(x) && IsIntCast(x) && IsInt(x.ty)
    requires x.f.k == SignExtend ==> Sign(x.e.ty)
    requires x.f.k == ZeroExtend ==> !Sign(x.e.ty)
    ensures As(Eval(x.e, env), x.e.ty, x.ty) == Eval(x, env)
  {
    var k, a := x.f.k, Eval(x.e, env);
    if k == Truncate || k == BitCast { CutIsConvert(a, Width(x.e.ty), Width(x.ty), Sign(x.e.ty)); }
    if k == BitCast { WrapSmall(a, Width(x.ty)); }
  }

  lemma SameType(a: nat, t: Ty)
    requires (t.Bool? || IsScalar(t)) && a < Pow2(Width(t))
    ensures As(a, t, t) == a
  {
    ViewWrap(a, Width(t), Sign(t));
  }

  /** Conversion to a type that contains the other keeps the number. */
  lemma ContainedNumber(a: nat, s: Ty, t: Ty)
    requires IsInt(s) && IsInt(t) && Contains(t, s) && a < Pow2(Width(s))
    ensures Number(As(a, s, t), t) == Number(a, s)
  {
    ExtendKeeps(a, Width(s), Width(t), s.signed);
  }

  /** Numbers decide comparisons of two operands of the sign that the comparison is about. */
  lemma ComparedNumbers(c: CmpOp, t: Ty, a: nat, b: nat)
    requires IsInt(t) && a < Pow2(Width(t)) && b < Pow2(Width(t)) && (Ordering(c) ==> Sign(t) == c.signed)
    ensures Holds(c, View(a, Width(t), CmpSigned(c)), View(b, Width(t), CmpSigned(c)))
        == Holds(c, Number(a, t), Number(b, t))
  {
    assert Number(a, t) == Number(b, t) <==> a == b by {
      ViewWrap(a, Width(t), Sign(t));
      ViewWrap(b, Width(t), Sign(t));
    }
  }
}
