/** Eliding casts preserves what C computes. */
module ElisionSound {
  import opened Wrappers
  import opened TwosComplement
  import opened Expressions
  import opened Legalization
  import opened CVerifier
  import opened CastElision
  import opened CEvaluation

  /** C computes the value of the expression `e` from the expression `y`. */
  ghost predicate Computes(d: DataModel, y: Ex, e: Ex, env: Env)
    requires ModelOk(d) && WellTyped(e)
  {
    CTyped(d, y) && CType(d, y) == Seen(d, e) && CEval(d, y, env) == Eval(e, env)
  }

  /** An operand, without its cast if that is dropped. */
  function Under(x: Ex, drop: bool): (y: Ex)
    ensures WellTyped(x) ==> WellTyped(y)
  {
    if drop && x.Node1? then x.e else x
  }

  predicate CastMatched(x: Ex) {
    IsIntCast(x) ==> (x.f.k == SignExtend ==> Sign(x.e.ty)) && (x.f.k == ZeroExtend ==> !Sign(x.e.ty))
  }

  /** What C computes from an operand, in the type that the operand had. */
  lemma Converted(d: DataModel, x: Ex, drop: bool, y: Ex, env: Env)
    requires ModelOk(d) && WellTyped(x) && IsInt(x.ty) && CastMatched(x) && (drop ==> IsIntCast(x))
    requires Computes(d, y, Under(x, drop), env)
    ensures CType(d, y) == Bare(x, drop) && IsInt(Bare(x, drop)) && CEval(d, y, env) < Pow2(Width(Bare(x, drop)))
    ensures As(CEval(d, y, env), CType(d, y), x.ty) == Eval(x, env)
  {
    if drop { DroppedCast(x, env); } else { SameType(Eval(x, env), x.ty); }
  }

  lemma CommonSelf(int_: nat, t: Ty)
    requires IsInt(t)
    ensures Common(int_, t, t) == Promote(int_, t)
  {
    CommonCases(int_, t, t);
  }

  lemma DropsKeepCommon(d: DataModel, l: Ex, r: Ex)
    ensures Common(d.int_, Bare(l, DropsLeft(d, l, r)), Bare(r, DropsRight(d, l, r))) == Common(d.int_, l.ty, r.ty)
  {}

  // ----- nodes -----

  lemma UnNode(d: DataModel, e: Ex, y: Ex, env: Env)
    requires ModelOk(d) && WellTyped(e) && e.Node1? && e.f.Un? && Follows(d, Promotions, e) && CastMatched(e.e)
    requires Computes(d, y, Under(e.e, DropsPromoted(d, e.e)), env)
    ensures Computes(d, Node1(e.f, e.ty, y), e, env)
  {
    Converted(d, e.e, DropsPromoted(d, e.e), y, env);
  }

  lemma NodeValue(d: DataModel, g: Op2, t: Ty, y: Ex, z: Ex, env: Env)
    requires ModelOk(d) && CTyped(d, y) && CTyped(d, z) && CTyped2(g, t, CType(d, y), CType(d, z))
    ensures CEval(d, Node2(g, t, y, z), env)
         == CValue2(d, g, t, CType(d, y), CType(d, z), CEval(d, y, env), CEval(d, z, env), env)
  {}

  lemma BinValue(d: DataModel, op: Op, t: Ty, tl: Ty, tr: Ty, a: nat, b: nat, env: Env)
    requires ModelOk(d) && IsInt(t) && IsInt(tl) && IsInt(tr) && !IsShift(op)
    requires Common(d.int_, tl, tr) == t && COp(op, t) == op
    ensures CValue2(d, Bin(op), t, tl, tr, a, b, env) == Apply(op, As(a, tl, t), As(b, tr, t), Width(t))
  {}

  lemma BinNode(d: DataModel, e: Ex, y: Ex, z: Ex, env: Env)
    requires ModelOk(d) && WellTyped(e) && e.Node2? && e.g.Bin? && !IsShift(e.g.op)
    requires Fine(d, Promotions, e) && Fine(d, Signs, e) && CastMatched(e.l) && CastMatched(e.r)
    requires Computes(d, y, Under(e.l, DropsLeft(d, e.l, e.r)), env)
    requires Computes(d, z, Under(e.r, DropsRight(d, e.l, e.r)), env)
    ensures Computes(d, Node2(e.g, e.ty, y, z), e, env)
  {
    Converted(d, e.l, DropsLeft(d, e.l, e.r), y, env);
    Converted(d, e.r, DropsRight(d, e.l, e.r), z, env);
    DropsKeepCommon(d, e.l, e.r);
    CommonSelf(d.int_, e.ty);
    NodeValue(d, e.g, e.ty, y, z, env);
    BinValue(d, e.g.op, e.ty, CType(d, y), CType(d, z), CEval(d, y, env), CEval(d, z, env), env);
  }

  /** A number whose promoted type is that of another one. */
  lemma PromotedNumber(d: DataModel, a: nat, t: Ty)
    requires ModelOk(d) && IsInt(t) && a < Pow2(Width(t))
    ensures Number(As(a, t, Promote(d.int_, t)), Promote(d.int_, t)) == Number(a, t)
  {
    if t.size < d.int_ { ExtendKeeps(a, Width(t), 8 * d.int_, t.signed); } else { SameType(a, t); }
  }

  /** A dropped cast that fits, or that leads to a type of at least `int`, has kept the number. */
  lemma KeptNumber(d: DataModel, x: Ex, drop: bool, y: Ex, env: Env)
    requires ModelOk(d) && WellTyped(x) && IsInt(x.ty) && CastMatched(x) && (drop ==> IsIntCast(x))
    requires Computes(d, y, Under(x, drop), env) && (drop ==> Contains(x.ty, x.e.ty))
    ensures Number(CEval(d, y, env), Bare(x, drop)) == Number(Eval(x, env), x.ty)
  {
    Converted(d, x, drop, y, env);
    if drop { ContainedNumber(Eval(x.e, env), x.e.ty, x.ty); }
  }

  lemma ShiftValue(d: DataModel, op: Op, t: Ty, tl: Ty, tr: Ty, a: nat, b: nat, env: Env)
    requires ModelOk(d) && IsInt(t) && IsInt(tl) && IsInt(tr) && IsShift(op) && b < Pow2(Width(tr))
    requires Promote(d.int_, tl) == t && COp(op, t) == op
    ensures CValue2(d, Bin(op), t, tl, tr, a, b, env) == Apply(op, As(a, tl, t), Number(b, tr), Width(t))
  {
    PromotedNumber(d, b, tr);
  }

  lemma DropContains(d: DataModel, x: Ex)
    requires IsInt(x.ty) && DropsPromoted(d, x) && DropFits(d, x, true)
    ensures Contains(x.ty, x.e.ty)
  {}

  lemma ShiftNode(d: DataModel, e: Ex, y: Ex, z: Ex, env: Env)
    requires ModelOk(d) && WellTyped(e) && e.Node2? && e.g.Bin? && IsShift(e.g.op) && NodeFits(d, e)
    requires Fine(d, Promotions, e) && Fine(d, Signs, e) && CastMatched(e.l) && CastMatched(e.r)
    requires Computes(d, y, Under(e.l, DropsPromoted(d, e.l)), env)
    requires Computes(d, z, Under(e.r, DropsPromoted(d, e.r)), env)
    ensures Computes(d, Node2(e.g, e.ty, y, z), e, env)
  {
    Converted(d, e.l, DropsPromoted(d, e.l), y, env);
    Converted(d, e.r, DropsPromoted(d, e.r), z, env);
    if DropsPromoted(d, e.r) { DropContains(d, e.r); }
    KeptNumber(d, e.r, DropsPromoted(d, e.r), z, env);
    NodeValue(d, e.g, e.ty, y, z, env);
    ShiftValue(d, e.g.op, e.ty, CType(d, y), CType(d, z), CEval(d, y, env), CEval(d, z, env), env);
  }

  /** Operands narrower than `int` are compared as numbers in `int`. */
  lemma NarrowNumber(d: DataModel, x: Ex, drop: bool, y: Ex, env: Env)
    requires ModelOk(d) && WellTyped(x) && IsInt(x.ty) && x.ty.size < d.int_ && CastMatched(x)
    requires (drop ==> IsIntCast(x))
    requires Computes(d, y, Under(x, drop), env) && (drop ==> Contains(x.ty, x.e.ty))
    ensures Number(As(CEval(d, y, env), CType(d, y), IntTy(d)), IntTy(d)) == Number(Eval(x, env), x.ty)
  {
    Converted(d, x, drop, y, env);
    KeptNumber(d, x, drop, y, env);
    ContainedNumber(CEval(d, y, env), Bare(x, drop), IntTy(d));
  }

  lemma CompareValue(d: DataModel, c: CmpOp, tl: Ty, tr: Ty, a: nat, b: nat, env: Env)
    requires ModelOk(d) && IsInt(tl) && IsInt(tr)
    ensures var t := Common(d.int_, tl, tr);
            IsInt(t) && CValue2(d, Compare(c), Bool, tl, tr, a, b, env)
                     == Truth(Holds(c, Number(As(a, tl, t), t), Number(As(b, tr, t), t)))
  {
    CommonCases(d.int_, tl, tr);
  }

  /** What C compares: the numbers of the operands. */
  lemma ComparedOperand(d: DataModel, x: Ex, drop: bool, y: Ex, t: Ty, env: Env)
    requires ModelOk(d) && WellTyped(x) && IsInt(x.ty) && CastMatched(x) && (drop ==> IsIntCast(x))
    requires Computes(d, y, Under(x, drop), env) && DropFits(d, x, drop) && t == Promote(d.int_, x.ty)
    ensures IsInt(CType(d, y)) && Number(As(CEval(d, y, env), CType(d, y), t), t) == Number(Eval(x, env), x.ty)
  {
    Converted(d, x, drop, y, env);
    if x.ty.size < d.int_ { NarrowNumber(d, x, drop, y, env); }
  }

  lemma CompareNode(d: DataModel, e: Ex, y: Ex, z: Ex, env: Env)
    requires ModelOk(d) && WellTyped(e) && e.Node2? && e.g.Compare? && e.l.ty.Int? && NodeFits(d, e)
    requires Fine(d, Signs, e) && CastMatched(e.l) && CastMatched(e.r)
    requires Computes(d, y, Under(e.l, DropsLeft(d, e.l, e.r)), env)
    requires Computes(d, z, Under(e.r, DropsRight(d, e.l, e.r)), env)
    ensures Computes(d, Node2(e.g, e.ty, y, z), e, env)
  {
    var t := Promote(d.int_, e.l.ty);
    Converted(d, e.l, DropsLeft(d, e.l, e.r), y, env);
    Converted(d, e.r, DropsRight(d, e.l, e.r), z, env);
    DropsKeepCommon(d, e.l, e.r);
    CommonSelf(d.int_, e.l.ty);
    ComparedNumbers(e.g.c, e.l.ty, Eval(e.l, env), Eval(e.r, env));
    ComparedOperand(d, e.l, DropsLeft(d, e.l, e.r), y, t, env);
    ComparedOperand(d, e.r, DropsRight(d, e.l, e.r), z, t, env);
    NodeValue(d, e.g, e.ty, y, z, env);
    CompareValue(d, e.g.c, CType(d, y), CType(d, z), CEval(d, y, env), CEval(d, z, env), env);
  }

  lemma PointerCompareNode(d: DataModel, e: Ex, y: Ex, z: Ex, env: Env)
    requires ModelOk(d) && WellTyped(e) && e.Node2? && e.g.Compare? && e.l.ty.Ptr? && Fine(d, Signs, e)
    requires Computes(d, y, e.l, env) && Computes(d, z, e.r, env)
    ensures Computes(d, Node2(e.g, e.ty, y, z), e, env)
  {}

  lemma PointerNode(d: DataModel, e: Ex, y: Ex, z: Ex, env: Env)
    requires ModelOk(d) && WellTyped(e) && e.Node2? && !e.g.Bin? && !e.g.Compare? && Fine(d, Pointers, e)
    requires Computes(d, y, e.l, env) && Computes(d, z, e.r, env)
    ensures Computes(d, Node2(e.g, e.ty, y, z), e, env)
  {
    OperandsSeen(e);
    PointerValue(d, e.g, e.ty, e.l.ty, e.r.ty, Eval(e.l, env), Eval(e.r, env), env);
    PointerTyped(d, e.g, e.ty, y, z, e.l.ty, e.r.ty);
    NodeValue(d, e.g, e.ty, y, z, env);
  }

  lemma OperandsSeen(e: Ex)
    requires WellTyped(e) && e.Node2? && !e.g.Bin? && !e.g.Compare?
    ensures !IsCompare(e) && !IsCompare(e.l) && !IsCompare(e.r)
  {}

  lemma PointerTyped(d: DataModel, g: Op2, t: Ty, y: Ex, z: Ex, tl: Ty, tr: Ty)
    requires CTyped(d, y) && CTyped(d, z) && CType(d, y) == tl && CType(d, z) == tr && CTyped2(g, t, tl, tr)
    requires Typed2(g, t, tl, tr) && !g.Bin? && !g.Compare?
    requires if g.PtrAdd? then t == Ptr(d.pointer) else tl == Ptr(d.pointer)
    ensures CTyped(d, Node2(g, t, y, z)) && CType(d, Node2(g, t, y, z)) == t
  {}

  lemma PointerValue(d: DataModel, g: Op2, t: Ty, tl: Ty, tr: Ty, a: nat, b: nat, env: Env)
    requires ModelOk(d) && Typed2(g, t, tl, tr) && !g.Bin? && !g.Compare? && a < Pow2(Width(tl)) && b < Pow2(Width(tr))
    requires if g.PtrAdd? then t == Ptr(d.pointer) else tl == Ptr(d.pointer)
    ensures CTyped2(g, t, tl, tr) && CValue2(d, g, t, tl, tr, a, b, env) == Value2(g, t, tl, tr, a, b, env)
  {}

  /** An explicit cast converts from the type that C sees. */
  lemma CastNode(d: DataModel, e: Ex, y: Ex, env: Env)
    requires ModelOk(d) && WellTyped(e) && e.Node1? && e.f.Cast? && Fine(d, Casts, e)
    requires Computes(d, y, e.e, env)
    ensures Computes(d, Node1(e.f, e.ty, y), e, env)
  {
    var k, a, s := e.f.k, Eval(e.e, env), e.e.ty;
    match k
    case SignExtend =>
    case ZeroExtend =>
    case PtrResize =>
    case Truncate => CutIsConvert(a, Width(s), Width(e.ty), Sign(s));
    case BitCast => CutIsConvert(a, Width(s), Width(e.ty), Sign(s)); WrapSmall(a, Width(e.ty));
    case BoolExtend => BoolNode(d, e, y, env);
  }

  lemma BoolNode(d: DataModel, e: Ex, y: Ex, env: Env)
    requires ModelOk(d) && WellTyped(e) && e.Node1? && e.f == Cast(BoolExtend) && Computes(d, y, e.e, env)
    ensures Computes(d, Node1(e.f, e.ty, y), e, env)
  {
    var a, t := Eval(e.e, env), Seen(d, e.e);
    assert a < Pow2(1) == 2;
    Pow2Monotone(1, Width(IntTy(d)) - 1);
    Pow2Monotone(1, Width(e.ty));
    assert View(a, Width(t), Sign(t)) == a;
    WrapSmall(a, Width(e.ty));
  }

  // ----- trees -----

  /** What the induction keeps about a part of an expression. */
  predicate Elidable(d: DataModel, e: Ex) { WellTyped(e) && Legal(d, e) && AllFit(d, e) }

  lemma ElidableKids(d: DataModel, e: Ex)
    requires Elidable(d, e)
    ensures e.Node1? ==> Elidable(d, e.e) && (e.e.Node1? ==> Elidable(d, e.e.e)) && CastMatched(e.e)
    ensures e.Node2? ==> Elidable(d, e.l) && (e.l.Node1? ==> Elidable(d, e.l.e)) && CastMatched(e.l)
    ensures e.Node2? ==> Elidable(d, e.r) && (e.r.Node1? ==> Elidable(d, e.r.e)) && CastMatched(e.r)
  {
    KidElidable(d, e);
    if e.Node1? { KidElidable(d, e.e); }
    if e.Node2? { KidElidable(d, e.l); KidElidable(d, e.r); }
  }

  lemma KidElidable(d: DataModel, e: Ex)
    requires Elidable(d, e)
    ensures e.Node1? ==> Elidable(d, e.e)
    ensures e.Node2? ==> Elidable(d, e.l) && Elidable(d, e.r)
    ensures CastMatched(e)
  {
    KidFollows(d, Pointers, e);
    KidFollows(d, Promotions, e);
    KidFollows(d, Immediates, e);
    KidFollows(d, Signs, e);
    KidFollows(d, Casts, e);
    assert Fine(d, Casts, e);
  }

  /** For every expression that the verifier accepts, C computes its value from the printed expression, in
      its type, whatever casts were left out. */
  lemma {:induction false} ElideValue(d: DataModel, e: Ex, env: Env)
    requires ModelOk(d) && Elidable(d, e)
    ensures Computes(d, Elide(d, e), e, env)
    decreases e
  {
    ElidableKids(d, e);
    match e
    case Node1(_, _, x) =>
      ElideValue(d, x, env);
      if x.Node1? { ElideValue(d, x.e, env); }
      ElideNode1(d, e, env);
    case Node2(_, _, l, r) =>
      ElideValue(d, l, env);
      ElideValue(d, r, env);
      if l.Node1? { ElideValue(d, l.e, env); }
      if r.Node1? { ElideValue(d, r.e, env); }
      ElideNode2(d, e, env);
    case _ =>
  }

  lemma ElideNode1(d: DataModel, e: Ex, env: Env)
    requires ModelOk(d) && Elidable(d, e) && e.Node1? && WellTyped(e.e) && CastMatched(e.e)
    requires Computes(d, Elide(d, e.e), e.e, env) && (e.e.Node1? ==> Computes(d, Elide(d, e.e.e), e.e.e, env))
    ensures Computes(d, Elide(d, e), e, env)
  {
    match e.f
    case Un(_) => UnNode(d, e, if DropsPromoted(d, e.e) then Elide(d, e.e.e) else Elide(d, e.e), env);
    case Cast(_) => CastNode(d, e, Elide(d, e.e), env);
    case Deref(_) =>
  }

  lemma ElideNode2(d: DataModel, e: Ex, env: Env)
    requires ModelOk(d) && Elidable(d, e) && e.Node2? && CastMatched(e.l) && CastMatched(e.r)
    requires Computes(d, Elide(d, e.l), e.l, env) && (e.l.Node1? ==> Computes(d, Elide(d, e.l.e), e.l.e, env))
    requires Computes(d, Elide(d, e.r), e.r, env) && (e.r.Node1? ==> Computes(d, Elide(d, e.r.e), e.r.e, env))
    ensures Computes(d, Elide(d, e), e, env)
  {
    var y := if DropsFirst(d, e.g, e.l, e.r) then Elide(d, e.l.e) else Elide(d, e.l);
    var z := if DropsSecond(d, e.g, e.l, e.r) then Elide(d, e.r.e) else Elide(d, e.r);
    match e.g
    case Bin(op) => if IsShift(op) { ShiftNode(d, e, y, z, env); } else { BinNode(d, e, y, z, env); }
    case Compare(_) => if e.l.ty.Int? { CompareNode(d, e, y, z, env); } else { PointerCompareNode(d, e, y, z, env); }
    case _ => PointerNode(d, e, y, z, env);
  }

  /** No operand of an arithmetic operation or comparison is narrower than `int`. */
  predicate IntWide(d: DataModel, e: Ex) {
    && (e.Node2? && (e.g.Bin? || e.g.Compare?) ==>
          (e.l.ty.Int? ==> e.l.ty.size >= d.int_) && (e.r.ty.Int? ==> e.r.ty.size >= d.int_))
    && (e.Node1? ==> IntWide(d, e.e))
    && (e.Node2? ==> IntWide(d, e.l) && IntWide(d, e.r))
  }

  /** At least as wide as `int`, dropped casts never matter. */
  lemma {:induction false} IntWideFits(d: DataModel, e: Ex)
    requires IntWide(d, e)
    ensures AllFit(d, e)
  {
    match e
    case Node1(_, _, x) => IntWideFits(d, x);
    case Node2(_, _, l, r) => IntWideFits(d, l); IntWideFits(d, r);
    case _ =>
  }

  /** From the expression of Clift to what C computes from the text: both passes together. */
  lemma LegalizeThenElide(d: DataModel, e: Ex, env: Env)
    requires ModelOk(d) && WellTyped(e) && AllAdaptable(d, e) && Follows(d, Standard, e) && AllFit(d, Legalize(d, e))
    ensures CTyped(d, Elide(d, Legalize(d, e))) && CEval(d, Elide(d, Legalize(d, e)), env) == Eval(e, env)
  {
    LegalizeAccepted(d, e);
    LegalizeValue(d, e, env);
    ElideValue(d, Legalize(d, e), env);
  }

  // ----- the pass -----

  /** All integer types have sizes that are powers of two. */
  predicate PowerSized(e: Ex) {
    (e.ty.Int? ==> PowerOfTwo(e.ty.size))
    && (e.Node1? ==> PowerSized(e.e))
    && (e.Node2? ==> PowerSized(e.l) && PowerSized(e.r))
  }

  function CastType(e: Ex): Option<Ty> { if IsIntCast(e) then Some(e.e.ty) else None }

  /** `elideArithmeticCasts` on two operands drops what `DropsLeft` and `DropsRight` say. */
  method ElideCommon(d: DataModel, l: Ex, r: Ex) returns (first: bool, second: bool)
    requires IsInt(l.ty) && IsInt(r.ty) && PowerSized(l) && PowerSized(r) && PowerOfTwo(d.int_) && d.int_ >= 2
    ensures first == DropsLeft(d, l, r) && second == DropsRight(d, l, r)
  {
    var types, casts := [l.ty, r.ty], [CastType(l), CastType(r)];
    var final, elided := ElideArithmeticCasts(d.int_, types, casts);
    first, second := elided[0], elided[1];
    if casts[0].Some? {
      var attempt := final[..0] + [casts[0].value] + types[1..];
      assert attempt == [l.e.ty, r.ty];
      assert AllInts(attempt);
    }
    if casts[1].Some? {
      var attempt := final[..1] + [casts[1].value] + types[2..];
      assert attempt == [Bare(l, first), r.e.ty];
      assert AllInts(attempt);
    }
  }

  /** The decisions for the operands of a shift, an arithmetic operation or a comparison of integers. */
  method ElideOperands(d: DataModel, g: Op2, l: Ex, r: Ex) returns (first: bool, second: bool)
    requires g.Bin? || (g.Compare? && l.ty.Int?) ==> IsInt(l.ty) && IsInt(r.ty)
    requires PowerSized(l) && PowerSized(r) && PowerOfTwo(d.int_) && d.int_ >= 2
    ensures first == DropsFirst(d, g, l, r) && second == DropsSecond(d, g, l, r)
  {
    first, second := false, false;
    if g.Bin? && IsShift(g.op) {
      first := IsIntCast(l) && Promote(d.int_, l.e.ty) == Promote(d.int_, l.ty);
      second := IsIntCast(r) && Promote(d.int_, r.e.ty) == Promote(d.int_, r.ty);
    } else if g.Bin? || (g.Compare? && l.ty.Int?) {
      first, second := ElideCommon(d, l, r);
    }
  }

  /** The whole expression, with the decisions of the pass at every operator: C computes what the expression
      is worth. */
  method ElideCasts(d: DataModel, e: Ex) returns (r: Ex)
    requires ModelOk(d) && WellTyped(e) && PowerSized(e) && PowerOfTwo(d.int_) && d.int_ >= 2
    ensures r == Elide(d, e)
    ensures Legal(d, e) && AllFit(d, e) ==> forall env: Env :: Computes(d, r, e, env)
    decreases e
  {
    match e {
      case Node1(f, t, x) =>
        var dropped := x;
        if f.Un? && IsIntCast(x) && Promote(d.int_, x.e.ty) == Promote(d.int_, x.ty) { dropped := x.e; }
        var y := ElideCasts(d, dropped);
        if f == Cast(BoolExtend) && IsCompare(x) && t == IntTy(d) { r := y; } else { r := Node1(f, t, y); }
      case Node2(g, t, left, right) =>
        var first, second := ElideOperands(d, g, left, right);
        var y := ElideCasts(d, Under(left, first));
        var z := ElideCasts(d, Under(right, second));
        r := Node2(g, t, y, z);
      case _ => r := e;
    }
    if Legal(d, e) && AllFit(d, e) {
      forall env: Env ensures Computes(d, r, e, env) { ElideValue(d, e, env); }
    }
  }
}
