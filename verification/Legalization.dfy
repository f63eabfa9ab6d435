/** Making expressions legal C: pointer sizes, promotion, immediates and sign matching. */
module Legalization {
  import opened TwosComplement
  import opened Expressions

  /** The sizes of `int` and of pointers, of the standard types from `int` on, of the standard types below
      it, and of all types that can be expressed. */
  datatype DataModel = DataModel(int_: nat, pointer: nat, wide: set<nat>, narrow: set<nat>, supported: set<nat>)

  predicate ModelOk(d: DataModel) {
    d.int_ > 0 && d.pointer > 0 && d.int_ in d.wide
    && (forall n :: n in d.wide ==> n >= d.int_)
    && forall n :: n in d.narrow ==> n <= d.int_
  }

  function IntTy(d: DataModel): Ty { Int(d.int_, true) }

  // ----- casts -----

  predicate Convertible(from: Ty, to: Ty) {
    (IsInt(from) && IsInt(to)) || (IsPtr(from) && IsPtr(to)) || (IsScalar(from) && IsScalar(to) && from.size == to.size)
  }

  function EmitCast(e: Ex, t: Ty): (r: Ex)
    requires WellTyped(e) && Convertible(e.ty, t)
    ensures WellTyped(r) && r.ty == t
  {
    var k := if e.ty.size == t.size then BitCast
             else if t.Ptr? then PtrResize
             else if t.size > e.ty.size then (if Sign(e.ty) then SignExtend else ZeroExtend)
             else Truncate;
    Node1(Cast(k), t, e)
  }

  lemma CutIsConvert(a: nat, w: nat, v: nat, signed: bool)
    requires 0 < v <= w && a < Pow2(w)
    ensures Convert(a, w, v, signed) == Wrap(a, v)
  {
    ViewSame(a, w, signed);
    SameNarrow(View(a, w, signed), a, v, w);
    SameMod(View(a, w, signed), a, Pow2(v));
  }

  /** Every emitted cast converts by the sign of its operand. */
  lemma EmitCastValue(e: Ex, t: Ty, env: Env)
    requires WellTyped(e) && Convertible(e.ty, t)
    ensures Eval(EmitCast(e, t), env) == Convert(Eval(e, env), Width(e.ty), Width(t), Sign(e.ty))
  {
    var a := Eval(e, env);
    if t.size <= e.ty.size {
      CutIsConvert(a, Width(e.ty), Width(t), Sign(e.ty));
      if t.size == e.ty.size { WrapSmall(a, Width(t)); }
    }
  }

  lemma SameSizeCast(e: Ex, t: Ty, env: Env)
    requires WellTyped(e) && Convertible(e.ty, t) && e.ty.size == t.size
    ensures Eval(EmitCast(e, t), env) == Eval(e, env)
  {}

  // ----- immediates -----

  function BitLength(x: nat): nat { if x == 0 then 0 else 1 + BitLength(x / 2) }

  /** The number of bits that a signed representation needs. */
  function SignificantBits(x: int): nat { 1 + BitLength(if x < 0 then -x - 1 else x) }

  lemma {:induction false} BitLengthFits(x: nat)
    ensures x < Pow2(BitLength(x))
  {
    if x > 0 { BitLengthFits(x / 2); }
  }

  /** The smallest power of two that is not below `n`. */
  function BitCeil(n: nat, p: nat): (r: nat)
    requires p > 0
    ensures r >= n && (p % 8 == 0 ==> r % 8 == 0)
    decreases if n <= p then 0 else n - p
  {
    if n <= p then p else EightDoubled(p); BitCeil(n, 2 * p)
  }

  lemma EightDoubled(p: nat)
    ensures p % 8 == 0 ==> 2 * p % 8 == 0
  {}

  /** The size of the signed immediate that stands for the bits `v` of type `t`. */
  function RequiredSize(d: DataModel, v: nat, t: Ty): nat
    requires IsInt(t)
  {
    var bits := BitCeil(SignificantBits(View(v, Width(t), true)), 1) / 8;
    if bits < d.int_ then d.int_ else bits
  }

  lemma CeilWide(n: nat)
    requires n > 0
    ensures n <= 8 || (BitCeil(n, 1) % 8 == 0 && BitCeil(n, 1) / 8 * 8 >= n)
  {
    if n > 8 { assert BitCeil(n, 1) == BitCeil(n, 2) == BitCeil(n, 4) == BitCeil(n, 8); }
  }

  lemma RequiredEnough(d: DataModel, v: nat, t: Ty)
    requires ModelOk(d) && IsInt(t)
    ensures 8 * RequiredSize(d, v, t) >= SignificantBits(View(v, Width(t), true))
  {
    CeilWide(SignificantBits(View(v, Width(t), true)));
  }

  // ----- the least size -----

  /** The signed integers of width `n`. */
  predicate FitsSigned(x: int, n: nat) { n > 0 && 0 - Half(n) <= x < Half(n) }

  lemma {:induction false} BitLengthLeast(x: nat, k: nat)
    requires x < Pow2(k)
    ensures BitLength(x) <= k
  {
    if x > 0 && k > 0 { BitLengthLeast(x / 2, k - 1); }
  }

  /** The significant bits are the least width that holds the number. */
  lemma BitsLeast(x: int, n: nat)
    ensures SignificantBits(x) <= n <==> FitsSigned(x, n)
  {
    if SignificantBits(x) <= n { SmallEnough(x, n); }
    if FitsSigned(x, n) { BitLengthLeast(if x < 0 then -x - 1 else x, n - 1); }
  }

  predicate IsPower(n: nat) { n == 1 || (n > 1 && n % 2 == 0 && IsPower(n / 2)) }

  lemma {:induction false} NextPower(p: nat, q: nat)
    requires IsPower(p) && IsPower(q) && p < q
    ensures 2 * p <= q
  {
    if p > 1 { NextPower(p / 2, q / 2); }
  }

  lemma {:induction false} CeilLeast(n: nat, p: nat, q: nat)
    requires IsPower(p) && IsPower(q) && n <= q && p <= q
    ensures BitCeil(n, p) <= q && IsPower(BitCeil(n, p))
    decreases n - p
  {
    if n > p {
      NextPower(p, q);
      assert IsPower(2 * p);
      CeilLeast(n, 2 * p, q);
    }
  }

  lemma {:induction false} SomePower(n: nat) returns (q: nat)
    ensures IsPower(q) && n <= q
  {
    if n <= 1 {
      q := 1;
    } else {
      var h := SomePower(n - 1);
      q := 2 * h;
    }
  }

  lemma PowerTimesEight(n: nat)
    requires IsPower(n)
    ensures IsPower(8 * n)
  {
    assert IsPower(2 * n) && IsPower(4 * n);
  }

  lemma WideBytes(k: nat, n: nat)
    requires k > 8 && IsPower(n)
    ensures BitCeil(k, 1) / 8 <= n <==> k <= 8 * n
    ensures IsPower(BitCeil(k, 1) / 8)
  {
    var q := SomePower(k);
    CeilLeast(k, 1, q);
    CeilWide(k);
    Eighth(BitCeil(k, 1));
    PowerTimesEight(n);
    if k <= 8 * n { CeilLeast(k, 1, 8 * n); }
  }

  /** The required size is `int` or a power of two, and among these it is the least one that holds the number. */
  lemma RequiredLeast(d: DataModel, v: nat, t: Ty, n: nat)
    requires ModelOk(d) && IsInt(t) && IsPower(n) && n >= d.int_
    ensures RequiredSize(d, v, t) <= n <==> FitsSigned(View(v, Width(t), true), 8 * n)
    ensures FitsSigned(View(v, Width(t), true), 8 * RequiredSize(d, v, t))
    ensures RequiredSize(d, v, t) == d.int_ || IsPower(RequiredSize(d, v, t))
  {
    var x := View(v, Width(t), true);
    var k := SignificantBits(x);
    BitsLeast(x, 8 * n);
    RequiredEnough(d, v, t);
    BitsLeast(x, 8 * RequiredSize(d, v, t));
    if k > 8 {
      WideBytes(k, n);
    } else {
      PowerTimesEight(1);
      CeilLeast(k, 1, 8);
    }
  }

  lemma Eighth(c: nat)
    requires IsPower(c) && c >= 8
    ensures IsPower(c / 8)
  {
    assert c / 2 / 2 / 2 == c / 8;
    assert IsPower(c / 2) && IsPower(c / 2 / 2);
  }

  /** Writing the bits `v` of width `w` as a signed immediate of width `n` and casting it back recovers
      them if `n` is no smaller than `w` or than the significant bits. */
  lemma ImmediateBits(v: nat, w: nat, n: nat)
    requires 0 < w && 0 < n && v < Pow2(w) && (n >= w || n >= SignificantBits(View(v, w, true)))
    ensures Convert(Wrap(v, n), n, w, true) == v
  {
    if n >= w {
      Pow2Monotone(w, n);
      WrapSmall(v, n);
      CutIsConvert(v, n, w, true);
      WrapSmall(v, w);
    } else {
      var x := View(v, w, true);
      SmallEnough(x, n);
      ViewSame(v, w, true);
      SameNarrow(x, v, n, w);
      SameMod(x, v, Pow2(n));
      assert Wrap(v, n) == Wrap(x, n);
      if x >= 0 { WrapSmall(x, n); } else { ModUnique(x, -1, x + Pow2(n), Pow2(n)); }
      assert View(Wrap(x, n), n, true) == x;
      ViewWrap(v, w, true);
    }
  }

  lemma SmallEnough(x: int, n: nat)
    requires n >= SignificantBits(x)
    ensures 0 <= x + Half(n) && x < Half(n)
  {
    var y := if x < 0 then -x - 1 else x;
    BitLengthFits(y);
    Pow2Monotone(BitLength(y), n - 1);
  }

  // ----- the patterns -----

  /** Pointer operations get pointers of the target's size, and operations narrower than `int` compute in
      `int`.  Signed comparisons of pointers compare integers. */
  function Adapt(d: DataModel, e: Ex): (r: Ex)
    requires ModelOk(d) && WellTyped(e)
    ensures WellTyped(r) && r.ty == e.ty
  {
    var int_, ptr := IntTy(d), Ptr(d.pointer);
    match e
    case Addr(x, t) => if t == ptr then e else EmitCast(Addr(x, ptr), t)
    case Null(t) => if t == ptr then e else EmitCast(Null(ptr), t)
    case Node1(Un(_), t, x) => if t.size >= d.int_ then e else EmitCast(Node1(e.f, int_, EmitCast(x, int_)), t)
    case Node1(Deref(_), t, x) => if x.ty == ptr then e else Node1(e.f, t, EmitCast(x, ptr))
    case Node2(Bin(op), t, l, r) => if t.size >= d.int_ then e else EmitCast(PromotedBin(d, e), t)
    case Node2(Compare(c), t, l, r) =>
      if l.ty.Ptr? && CmpSigned(c) then
        Node2(e.g, t, EmitCast(l, Int(l.ty.size, true)), EmitCast(r, Int(l.ty.size, true)))
      else e
    case Node2(PtrAdd(_, _, _), t, l, r) =>
      if t == ptr then e else EmitCast(Node2(e.g, ptr, EmitCast(l, Resized(d, l.ty)), EmitCast(r, Resized(d, r.ty))), t)
    case Node2(PtrDiff(_), t, l, r) =>
      if l.ty == ptr then e else EmitCast(Node2(e.g, Int(d.pointer, true), EmitCast(l, ptr), EmitCast(r, ptr)), t)
    case Node2(Subscript(_), t, l, r) => if l.ty == ptr then e else Node2(e.g, t, EmitCast(l, ptr), r)
    case _ => e
  }

  function Resized(d: DataModel, t: Ty): Ty { if t.Int? then Int(d.pointer, t.signed) else Ptr(d.pointer) }

  function PromotedBin(d: DataModel, e: Ex): (r: Ex)
    requires ModelOk(d) && WellTyped(e) && e.Node2? && e.g.Bin?
    ensures WellTyped(r) && r.ty == IntTy(d)
  {
    Node2(e.g, IntTy(d), EmitCast(e.l, IntTy(d)), if IsShift(e.g.op) then e.r else EmitCast(e.r, IntTy(d)))
  }

  /** Casts around immediates that C cannot write, and boolean extensions to `int`.  An immediate that no
      standard type can hold stays as it is and is printed as an intrinsic. */
  function Represent(d: DataModel, e: Ex): (r: Ex)
    requires ModelOk(d) && WellTyped(e)
    ensures WellTyped(r) && r.ty == e.ty
  {
    match e
    case Imm(v, t) =>
      if t.size in d.wide then e
      else if t.size in d.narrow then EmitCast(Imm(Wrap(v, 8 * d.int_), IntTy(d)), t)
      else if t.size in d.supported && RequiredSize(d, v, t) in d.wide then
        EmitCast(Imm(Wrap(v, 8 * RequiredSize(d, v, t)), Int(RequiredSize(d, v, t), true)), t)
      else e
    case Node1(Cast(BoolExtend), t, x) => if t == IntTy(d) then e else EmitCast(Node1(e.f, IntTy(d), x), t)
    case _ => e
  }

  function Resigned(t: Ty, signed: bool): Ty
    requires IsScalar(t)
  {
    Int(t.size, signed)
  }

  /** Operands get the sign that the operation is about. */
  function MatchSigns(e: Ex): (r: Ex)
    requires WellTyped(e)
    ensures WellTyped(r) && r.ty == e.ty
  {
    match e
    case Node1(Cast(k), t, x) =>
      if (k == SignExtend && !Sign(x.ty)) || (k == ZeroExtend && Sign(x.ty)) then
        Node1(e.f, t, EmitCast(x, Resigned(x.ty, k == SignExtend)))
      else e
    case Node2(Bin(op), t, l, r) =>
      if SignMatters(op) && Sign(t) != Signed(op) then EmitCast(ResignedBin(e), t) else e
    case Node2(Compare(c), t, l, r) =>
      if Ordering(c) && Sign(l.ty) != c.signed then
        Node2(e.g, t, EmitCast(l, Resigned(l.ty, c.signed)), EmitCast(r, Resigned(l.ty, c.signed)))
      else e
    case _ => e
  }

  function ResignedBin(e: Ex): (r: Ex)
    requires WellTyped(e) && e.Node2? && e.g.Bin?
    ensures WellTyped(r) && r.ty == Resigned(e.ty, Signed(e.g.op))
  {
    var n := Resigned(e.ty, Signed(e.g.op));
    Node2(e.g, n, EmitCast(e.l, n), if IsShift(e.g.op) then e.r else EmitCast(e.r, n))
  }

  // ----- the pass -----

  /** The pattern sets that the pass applies one after the other. */
  datatype Stage = Adapting | Representing | Matching

  function Local(s: Stage, d: DataModel, e: Ex): (r: Ex)
    requires ModelOk(d) && WellTyped(e)
    ensures WellTyped(r) && r.ty == e.ty
  {
    match s
    case Adapting => Adapt(d, e)
    case Representing => Represent(d, e)
    case Matching => MatchSigns(e)
  }

  /** A stage rewrites every node. */
  function Rewrite(s: Stage, d: DataModel, e: Ex): (r: Ex)
    requires ModelOk(d) && WellTyped(e)
    ensures WellTyped(r) && r.ty == e.ty
    decreases e
  {
    match e
    case Node1(f, t, x) => Local(s, d, Node1(f, t, Rewrite(s, d, x)))
    case Node2(g, t, l, r) => Local(s, d, Node2(g, t, Rewrite(s, d, l), Rewrite(s, d, r)))
    case _ => Local(s, d, e)
  }

  function Legalize(d: DataModel, e: Ex): (r: Ex)
    requires ModelOk(d) && WellTyped(e)
    ensures WellTyped(r) && r.ty == e.ty
  {
    Rewrite(Matching, d, Rewrite(Representing, d, Rewrite(Adapting, d, e)))
  }

  // ----- values -----

  /** The node may be adapted: an operation below `int` whose meaning depends on the sign has operands of that
      sign, and pointers fit into the target's. */
  ghost predicate Adaptable(d: DataModel, e: Ex)
    requires ModelOk(d) && WellTyped(e)
  {
    match e
    case Addr(_, t) => t.size <= d.pointer
    case Node1(Deref(_), _, x) => x.ty.size <= d.pointer
    case Node2(Bin(op), t, _, _) =>
      t.size < d.int_ && Mismatched(op, t.signed) ==> op == URem && RemaindersAgree(Width(t), Width(IntTy(d)))
    case Node2(PtrAdd(_, _, _), t, _, _) => t.size <= d.pointer
    case Node2(PtrDiff(_), _, l, _) => l.ty.size <= d.pointer
    case Node2(Subscript(_), _, l, _) => l.ty.size <= d.pointer
    case _ => true
  }

  ghost predicate AllAdaptable(d: DataModel, e: Ex)
    requires ModelOk(d) && WellTyped(e)
  {
    Adaptable(d, e)
    && (e.Node1? ==> AllAdaptable(d, e.e))
    && (e.Node2? ==> AllAdaptable(d, e.l) && AllAdaptable(d, e.r))
  }

  lemma UnLow(c: int, b: int, a: int, w: nat, v: nat)
    requires w <= v && Same(b, a, Pow2(w))
    ensures Wrap(Wrap(c - b, v), w) == Wrap(c - a, w)
  {
    SameSelf(c, Pow2(w));
    SameRing(c, c, b, a, Pow2(w));
    WrapWrap(c - b, w, v);
    SameMod(c - b, c - a, Pow2(w));
  }

  lemma UnPromotion(u: UnOp, a: nat, w: nat, v: nat, signed: bool)
    requires 0 < w <= v && a < Pow2(w)
    ensures Wrap(UnValue(u, Convert(a, w, v, signed), v), w) == UnValue(u, a, w)
  {
    var b := Convert(a, w, v, signed);
    ExtendKeeps(a, w, v, signed);
    ModSame(b, Pow2(w));
    SameBack(a, b, Pow2(w));
    UnLow(if u == Neg then 0 else -1, b, a, w, v);
  }

  lemma PromoteUn(d: DataModel, e: Ex, env: Env)
    requires ModelOk(d) && WellTyped(e) && e.Node1? && e.f.Un? && e.ty.size < d.int_
    ensures Eval(Adapt(d, e), env) == Eval(e, env)
  {
    var t, w, v := IntTy(d), Width(e.ty), Width(IntTy(d));
    EmitCastValue(e.e, t, env);
    var wide := Node1(e.f, t, EmitCast(e.e, t));
    EmitCastValue(wide, e.ty, env);
    CutIsConvert(Eval(wide, env), v, w, true);
    UnPromotion(e.f.u, Eval(e.e, env), w, v, e.ty.signed);
  }

  /** The second operand of an arithmetic operation: bits, or a number of shifts. */
  function Second(e: Ex, env: Env): int
    requires WellTyped(e) && e.Node2? && e.g.Bin?
  {
    if IsShift(e.g.op) then Number(Eval(e.r, env), e.r.ty) else Eval(e.r, env)
  }

  /** What a promoted operation computes. */
  lemma PromotedValue(d: DataModel, e: Ex, env: Env)
    requires ModelOk(d) && WellTyped(e) && e.Node2? && e.g.Bin? && e.ty.size < d.int_
    ensures Eval(Adapt(d, e), env)
         == Promoted(e.g.op, Eval(e.l, env), Second(e, env), Width(e.ty), Width(IntTy(d)), e.ty.signed)
    ensures Eval(e, env) == Apply(e.g.op, Eval(e.l, env), Second(e, env), Width(e.ty))
  {
    var t, w, v, wide := IntTy(d), Width(e.ty), Width(IntTy(d)), PromotedBin(d, e);
    EmitCastValue(e.l, t, env);
    if !IsShift(e.g.op) { EmitCastValue(e.r, t, env); }
    EmitCastValue(wide, e.ty, env);
    CutIsConvert(Eval(wide, env), v, w, true);
  }

  lemma PromoteBin(d: DataModel, e: Ex, env: Env)
    requires ModelOk(d) && WellTyped(e) && e.Node2? && e.g.Bin? && e.ty.size < d.int_ && Adaptable(d, e)
    ensures Eval(Adapt(d, e), env) == Eval(e, env)
  {
    var w, v, op, a, b := Width(e.ty), Width(IntTy(d)), e.g.op, Eval(e.l, env), Second(e, env);
    PromotedValue(d, e, env);
    if Mismatched(op, e.ty.signed) { RemainderAgrees(a, b, w, v); } else { Promotion(op, a, b, w, v, e.ty.signed); }
  }

  lemma ResizeUp(a: nat, s: nat, t: nat)
    requires 0 < s <= t && a < Pow2(8 * s)
    ensures Convert(a, 8 * s, 8 * t, false) == a
  {
    Pow2Monotone(8 * s, 8 * t);
    WrapSmall(a, 8 * t);
  }

  lemma ResizePointer(e: Ex, t: Ty, env: Env)
    requires WellTyped(e) && IsPtr(e.ty) && IsPtr(t) && e.ty.size <= t.size
    ensures Eval(EmitCast(e, t), env) == Eval(e, env)
  {
    EmitCastValue(e, t, env);
    ResizeUp(Eval(e, env), e.ty.size, t.size);
  }

  lemma CutPointer(e: Ex, t: Ty, x: int, env: Env)
    requires WellTyped(e) && IsPtr(e.ty) && IsPtr(t) && e.ty.size >= t.size && Eval(e, env) == Wrap(x, Width(e.ty))
    ensures Eval(EmitCast(e, t), env) == Wrap(x, Width(t))
  {
    EmitCastValue(e, t, env);
    CutIsConvert(Eval(e, env), Width(e.ty), Width(t), false);
    WrapWrap(x, Width(t), Width(e.ty));
  }

  /** Extending an integer keeps its number. */
  lemma ExtendNumber(e: Ex, t: Ty, env: Env)
    requires WellTyped(e) && IsInt(e.ty) && IsInt(t) && e.ty.size <= t.size && e.ty.signed == t.signed
    ensures Number(Eval(EmitCast(e, t), env), t) == Number(Eval(e, env), e.ty)
  {
    EmitCastValue(e, t, env);
    ExtendKeeps(Eval(e, env), Width(e.ty), Width(t), e.ty.signed);
  }

  lemma ResizeAddition(d: DataModel, e: Ex, env: Env)
    requires ModelOk(d) && WellTyped(e) && e.Node2? && e.g.PtrAdd? && e.ty.size <= d.pointer
    ensures Eval(Adapt(d, e), env) == Eval(e, env)
  {
    if e.ty != Ptr(d.pointer) {
      var (p, i) := if e.g.left then (e.l, e.r) else (e.r, e.l);
      ResizePointer(p, Ptr(d.pointer), env);
      ExtendNumber(i, Resized(d, i.ty), env);
      var wide := Node2(e.g, Ptr(d.pointer), EmitCast(e.l, Resized(d, e.l.ty)), EmitCast(e.r, Resized(d, e.r.ty)));
      CutPointer(wide, e.ty, Moved(e.g.sub, e.g.elem, Eval(p, env), Number(Eval(i, env), i.ty)), env);
    }
  }

  lemma ResizeDifference(d: DataModel, e: Ex, env: Env)
    requires ModelOk(d) && WellTyped(e) && e.Node2? && e.g.PtrDiff? && e.l.ty.size <= d.pointer
    ensures Eval(Adapt(d, e), env) == Eval(e, env)
  {
    var p := Ptr(d.pointer);
    if e.l.ty != p {
      ResizePointer(e.l, p, env);
      ResizePointer(e.r, p, env);
      var wide := Node2(e.g, Int(d.pointer, true), EmitCast(e.l, p), EmitCast(e.r, p));
      EmitCastValue(wide, e.ty, env);
      CutIsConvert(Eval(wide, env), Width(wide.ty), Width(e.ty), true);
      WrapWrap(Divide(Eval(e.l, env) - Eval(e.r, env), e.g.elem), Width(e.ty), Width(wide.ty));
    }
  }

  lemma AdaptValue(d: DataModel, e: Ex, env: Env)
    requires ModelOk(d) && WellTyped(e) && Adaptable(d, e)
    ensures Eval(Adapt(d, e), env) == Eval(e, env)
  {
    var ptr := Ptr(d.pointer);
    match e
    case Addr(x, t) => if t != ptr { CutPointer(Addr(x, ptr), t, env.addresses(x), env); }
    case Null(t) => if t != ptr { EmitCastValue(Null(ptr), t, env); WrapSmall(0, Width(t)); }
    case Node1(Un(_), t, x) => if t.size < d.int_ { PromoteUn(d, e, env); }
    case Node1(Deref(_), t, x) => ResizePointer(x, ptr, env);
    case Node2(Bin(_), t, l, r) => if t.size < d.int_ { PromoteBin(d, e, env); }
    case Node2(Compare(c), t, l, r) => AdaptCompare(d, e, env);
    case Node2(PtrAdd(_, _, _), t, l, r) => ResizeAddition(d, e, env);
    case Node2(PtrDiff(_), t, l, r) => ResizeDifference(d, e, env);
    case Node2(Subscript(_), t, l, r) => ResizePointer(l, ptr, env);
    case _ =>
  }

  lemma AdaptCompare(d: DataModel, e: Ex, env: Env)
    requires ModelOk(d) && WellTyped(e) && e.Node2? && e.g.Compare?
    ensures Eval(Adapt(d, e), env) == Eval(e, env)
  {
    if e.l.ty.Ptr? && CmpSigned(e.g.c) {
      SameSizeCast(e.l, Int(e.l.ty.size, true), env);
      SameSizeCast(e.r, Int(e.l.ty.size, true), env);
    }
  }

  lemma RepresentImm(d: DataModel, v: nat, t: Ty, env: Env)
    requires ModelOk(d) && IsInt(t) && v < Pow2(Width(t))
    ensures Eval(Represent(d, Imm(v, t)), env) == v
  {
    if t.size !in d.wide {
      var n := if t.size in d.narrow then d.int_ else RequiredSize(d, v, t);
      EmitCastValue(Imm(Wrap(v, 8 * n), Int(n, true)), t, env);
      RequiredEnough(d, v, t);
      ImmediateBits(v, Width(t), 8 * n);
    }
  }

  lemma BoolBits(d: DataModel, x: Ex, t: Ty, env: Env)
    requires ModelOk(d) && WellTyped(x) && x.ty.Bool? && IsInt(t)
    ensures Eval(EmitCast(Node1(Cast(BoolExtend), IntTy(d), x), t), env) == Eval(x, env)
  {
    var y, a := Node1(Cast(BoolExtend), IntTy(d), x), Eval(x, env);
    EmitCastValue(y, t, env);
    assert a < Pow2(1) == 2;
    Pow2Monotone(1, 8 * d.int_ - 1);
    Pow2Monotone(1, Width(t));
    WrapSmall(a, Width(t));
  }

  lemma RepresentValue(d: DataModel, e: Ex, env: Env)
    requires ModelOk(d) && WellTyped(e)
    ensures Eval(Represent(d, e), env) == Eval(e, env)
  {
    match e
    case Imm(v, t) => RepresentImm(d, v, t, env);
    case Node1(Cast(BoolExtend), t, x) => if t != IntTy(d) { BoolBits(d, x, t, env); }
    case _ =>
  }

  lemma MatchValue(e: Ex, env: Env)
    requires WellTyped(e)
    ensures Eval(MatchSigns(e), env) == Eval(e, env)
  {
    match e
    case Node1(Cast(k), t, x) =>
      if k == SignExtend || k == ZeroExtend { SameSizeCast(x, Resigned(x.ty, k == SignExtend), env); }
    case Node2(Bin(op), t, l, r) =>
      var n := Resigned(t, Signed(op));
      SameSizeCast(l, n, env);
      if !IsShift(op) { SameSizeCast(r, n, env); }
      SameSizeCast(ResignedBin(e), t, env);
    case Node2(Compare(c), t, l, r) =>
      if Ordering(c) {
        SameSizeCast(l, Resigned(l.ty, c.signed), env);
        SameSizeCast(r, Resigned(l.ty, c.signed), env);
      }
    case _ =>
  }

  lemma LocalValue(s: Stage, d: DataModel, e: Ex, env: Env)
    requires ModelOk(d) && WellTyped(e) && (s == Adapting ==> Adaptable(d, e))
    ensures Eval(Local(s, d, e), env) == Eval(e, env)
  {
    match s
    case Adapting => AdaptValue(d, e, env);
    case Representing => RepresentValue(d, e, env);
    case Matching => MatchValue(e, env);
  }

  lemma {:induction false} RewriteValue(s: Stage, d: DataModel, e: Ex, env: Env)
    requires ModelOk(d) && WellTyped(e) && (s == Adapting ==> AllAdaptable(d, e))
    ensures Eval(Rewrite(s, d, e), env) == Eval(e, env)
    decreases e
  {
    match e
    case Node1(f, t, x) =>
      RewriteValue(s, d, x, env);
      LocalValue(s, d, Node1(f, t, Rewrite(s, d, x)), env);
    case Node2(g, t, l, r) =>
      RewriteValue(s, d, l, env);
      RewriteValue(s, d, r, env);
      LocalValue(s, d, Node2(g, t, Rewrite(s, d, l), Rewrite(s, d, r)), env);
    case _ => LocalValue(s, d, e, env);
  }

  /** The value of every expression is preserved. */
  lemma LegalizeValue(d: DataModel, e: Ex, env: Env)
    requires ModelOk(d) && WellTyped(e) && AllAdaptable(d, e)
    ensures Eval(Legalize(d, e), env) == Eval(e, env)
  {
    var adapted := Rewrite(Adapting, d, e);
    RewriteValue(Adapting, d, e, env);
    RewriteValue(Representing, d, adapted, env);
    RewriteValue(Matching, d, Rewrite(Representing, d, adapted), env);
  }
}
