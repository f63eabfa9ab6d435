/** Integer and pointer expressions of Clift, and their values. */
module Expressions {
  import opened TwosComplement

  // ----- types -----

  /** Sizes are in bytes. */
  datatype Ty = Int(size: nat, signed: bool) | Ptr(size: nat) | Bool

  function Width(t: Ty): nat { if t.Bool? then 1 else 8 * t.size }

  predicate IsInt(t: Ty) { t.Int? && t.size > 0 }

  predicate IsPtr(t: Ty) { t.Ptr? && t.size > 0 }

  predicate IsScalar(t: Ty) { IsInt(t) || IsPtr(t) }

  predicate Sign(t: Ty) { t.Int? && t.signed }

  // ----- operations -----

  datatype UnOp = Neg | Not

  datatype CmpOp = Eq | Ne | Lt(signed: bool) | Gt(signed: bool) | Le(signed: bool) | Ge(signed: bool)

  datatype CastKind = SignExtend | ZeroExtend | Truncate | BitCast | BoolExtend | PtrResize

  /** `Deref` reads at an offset from a pointer: an indirection or an indirect member access. */
  datatype Op1 = Un(u: UnOp) | Cast(k: CastKind) | Deref(offset: nat)

  /** Pointer operations know the size of an element; `left` says which operand of an addition is the pointer. */
  datatype Op2 =
    | Bin(op: Op)
    | Compare(c: CmpOp)
    | PtrAdd(sub: bool, elem: nat, left: bool)
    | PtrDiff(elem: nat)
    | Subscript(elem: nat)

  /** `Addr` is the address of an object, taken explicitly or by decay. */
  datatype Ex =
    | Var(id: nat, ty: Ty)
    | Imm(v: nat, ty: Ty)
    | Addr(id: nat, ty: Ty)
    | Null(ty: Ty)
    | Node1(f: Op1, ty: Ty, e: Ex)
    | Node2(g: Op2, ty: Ty, l: Ex, r: Ex)

  predicate CastOk(k: CastKind, from: Ty, to: Ty) {
    match k
    case SignExtend => IsInt(from) && IsInt(to) && from.size < to.size
    case ZeroExtend => IsInt(from) && IsInt(to) && from.size < to.size
    case Truncate => IsInt(from) && IsInt(to) && from.size > to.size
    case BitCast => IsScalar(from) && IsScalar(to) && from.size == to.size
    case BoolExtend => from.Bool? && IsInt(to)
    case PtrResize => IsPtr(from) && IsPtr(to) && from.size != to.size
  }

  predicate Typed1(f: Op1, t: Ty, tx: Ty) {
    match f
    case Un(_) => IsInt(t) && tx == t
    case Cast(k) => CastOk(k, tx, t)
    case Deref(_) => IsPtr(tx) && IsScalar(t)
  }

  predicate Typed2(g: Op2, t: Ty, tl: Ty, tr: Ty) {
    match g
    case Bin(op) => IsInt(t) && tl == t && (if IsShift(op) then IsInt(tr) else tr == t)
    case Compare(_) => t.Bool? && IsScalar(tl) && tl == tr
    case PtrAdd(sub, elem, left) =>
      var (p, i) := if left then (tl, tr) else (tr, tl);
      IsPtr(t) && p == t && IsInt(i) && i.size == t.size && elem > 0 && (sub ==> left)
    case PtrDiff(elem) => IsPtr(tl) && tl == tr && t == Int(tl.size, true) && elem > 0
    case Subscript(elem) => IsPtr(tl) && IsInt(tr) && IsScalar(t) && elem > 0
  }

  predicate WellTyped(e: Ex) {
    match e
    case Var(_, t) => t.Bool? || IsScalar(t)
    case Imm(v, t) => IsInt(t) && v < Pow2(Width(t))
    case Addr(_, t) => IsPtr(t)
    case Null(t) => IsPtr(t)
    case Node1(f, t, x) => WellTyped(x) && Typed1(f, t, x.ty)
    case Node2(g, t, l, r) => WellTyped(l) && WellTyped(r) && Typed2(g, t, l.ty, r.ty)
  }

  // ----- values -----

  /** Values of variables, addresses of objects and what memory holds at an address. */
  datatype Env = Env(variables: nat -> nat, addresses: nat -> nat, memory: int -> nat)

  /** The number that the bits `a` stand for. */
  function Number(a: nat, t: Ty): int
    requires t.Bool? || IsScalar(t)
  {
    View(a, Width(t), Sign(t))
  }

  predicate Holds(c: CmpOp, a: int, b: int) {
    match c
    case Eq => a == b
    case Ne => a != b
    case Lt(_) => a < b
    case Gt(_) => a > b
    case Le(_) => a <= b
    case Ge(_) => a >= b
  }

  predicate Ordering(c: CmpOp) { !c.Eq? && !c.Ne? }

  predicate CmpSigned(c: CmpOp) { Ordering(c) && c.signed }

  function Truth(b: bool): (r: nat)
    ensures r < Pow2(1)
  {
    assert Pow2(1) == 2 * Pow2(0);
    if b then 1 else 0
  }

  function UnValue(u: UnOp, a: nat, w: nat): (r: nat)
    ensures r < Pow2(w)
  {
    Wrap((if u == Neg then 0 else -1) - a, w)
  }

  function CastValue(k: CastKind, t: Ty, tx: Ty, a: nat): (r: nat)
    requires CastOk(k, tx, t) && a < Pow2(Width(tx))
    ensures r < Pow2(Width(t))
  {
    match k
    case SignExtend => Convert(a, Width(tx), Width(t), true)
    case ZeroExtend => Convert(a, Width(tx), Width(t), false)
    case PtrResize => Convert(a, Width(tx), Width(t), false)
    case Truncate => Wrap(a, Width(t))
    case BitCast => a
    case BoolExtend => Pow2Monotone(1, Width(t)); a
  }

  function Load(env: Env, address: int, t: Ty): (r: nat)
    ensures r < Pow2(Width(t))
  {
    Wrap(env.memory(address), Width(t))
  }

  function Value1(f: Op1, t: Ty, tx: Ty, a: nat, env: Env): (r: nat)
    requires Typed1(f, t, tx) && a < Pow2(Width(tx))
    ensures r < Pow2(Width(t))
  {
    match f
    case Un(u) => UnValue(u, a, Width(t))
    case Cast(k) => CastValue(k, t, tx, a)
    case Deref(offset) => Load(env, a + offset, t)
  }

  /** Addresses are numbers; an addition stays within the width of the pointer, a difference counts elements,
      and a subscript outside of the address space addresses nothing that is in it. */
  function Value2(g: Op2, t: Ty, tl: Ty, tr: Ty, a: nat, b: nat, env: Env): (r: nat)
    requires Typed2(g, t, tl, tr) && a < Pow2(Width(tl)) && b < Pow2(Width(tr))
    ensures r < Pow2(Width(t))
  {
    match g
    case Bin(op) => Apply(op, a, if IsShift(op) then Number(b, tr) else b, Width(t))
    case Compare(c) => Truth(Holds(c, View(a, Width(tl), CmpSigned(c)), View(b, Width(tr), CmpSigned(c))))
    case PtrAdd(sub, elem, left) =>
      if left then Wrap(Moved(sub, elem, a, Number(b, tr)), Width(t))
      else Wrap(Moved(sub, elem, b, Number(a, tl)), Width(t))
    case PtrDiff(elem) => Wrap(Divide(a - b, elem), Width(t))
    case Subscript(elem) => Load(env, a + Number(b, tr) * elem, t)
  }

  function Moved(sub: bool, elem: nat, p: nat, i: int): int { if sub then p - i * elem else p + i * elem }

  /** The bits of the value; operations mean what their name says, whatever the declared signs. */
  function Eval(e: Ex, env: Env): (a: nat)
    requires WellTyped(e)
    ensures a < Pow2(Width(e.ty))
  {
    match e
    case Var(x, t) => Wrap(env.variables(x), Width(t))
    case Imm(v, _) => v
    case Addr(x, t) => Wrap(env.addresses(x), Width(t))
    case Null(_) => 0
    case Node1(f, t, x) => Value1(f, t, x.ty, Eval(x, env), env)
    case Node2(g, t, l, r) => Value2(g, t, l.ty, r.ty, Eval(l, env), Eval(r, env), env)
  }
}
