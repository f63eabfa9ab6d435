/** Integers of a given width, as bit patterns, and the operations of Clift on them. */
module TwosComplement {

  function Pow2(n: nat): (p: nat)
    ensures p >= 1
  {
    if n == 0 then 1 else 2 * Pow2(n - 1)
  }

  lemma {:induction false} Pow2Add(m: nat, n: nat)
    ensures Pow2(m + n) == Pow2(m) * Pow2(n)
  {
    if m > 0 {
      Pow2Add(m - 1, n);
      assert Pow2(m + n) == 2 * (Pow2(m - 1) * Pow2(n));
    }
  }

  /** The bits of an integer at width `w`. */
  function Wrap(x: int, w: nat): (r: nat)
    ensures r < Pow2(w)
  {
    x % Pow2(w)
  }

  // ----- arithmetic modulo powers of two -----

  lemma FactorZero(k: int, m: int)
    requires m > 0
    ensures k >= 1 ==> k * m >= m
    ensures k <= -1 ==> k * m <= -m
  {}

  lemma ModUnique(x: int, q: int, r: int, m: int)
    requires m > 0 && x == q * m + r && 0 <= r < m
    ensures x % m == r
  {
    var q2, r2 := x / m, x % m;
    assert (q - q2) * m == r2 - r;
    FactorZero(q - q2, m);
  }

  /** Equal modulo `m`. */
  ghost predicate Same(x: int, y: int, m: int) { exists k: int :: x == y + k * m }

  lemma SameMod(x: int, y: int, m: int)
    requires m > 0 && Same(x, y, m)
    ensures x % m == y % m
  {
    var k: int :| x == y + k * m;
    assert x == (y / m + k) * m + y % m;
    ModUnique(x, y / m + k, y % m, m);
  }

  lemma ModSame(x: int, m: int)
    requires m > 0
    ensures Same(x % m, x, m)
  {
    assert x % m == x + (-(x / m)) * m;
  }

  lemma SameRing(a: int, a2: int, b: int, b2: int, m: int)
    requires Same(a, a2, m) && Same(b, b2, m)
    ensures Same(a + b, a2 + b2, m) && Same(a - b, a2 - b2, m) && Same(a * b, a2 * b2, m)
  {
    var k: int :| a == a2 + k * m;
    var l: int :| b == b2 + l * m;
    assert a + b == a2 + b2 + (k + l) * m;
    assert a - b == a2 - b2 + (k - l) * m;
    assert a * b == a2 * b2 + (k * b2 + a2 * l + k * l * m) * m;
  }

  /** Cutting twice is cutting once. */
  lemma WrapWrap(x: int, w: nat, v: nat)
    requires w <= v
    ensures Wrap(Wrap(x, v), w) == Wrap(x, w)
  {
    var m, n := Pow2(w), Pow2(v);
    Pow2Add(w, v - w);
    ModSame(x, n);
    SameFactor(x % n, x, m, Pow2(v - w));
    SameMod(x % n, x, m);
  }

  lemma WrapSmall(x: int, w: nat)
    requires 0 <= x < Pow2(w)
    ensures Wrap(x, w) == x
  {
    ModUnique(x, 0, x, Pow2(w));
  }

  // ----- signed and unsigned views -----

  function Half(w: nat): nat
    requires w > 0
  {
    Pow2(w - 1)
  }

  /** The value of the bits `a` at width `w`. */
  function View(a: nat, w: nat, signed: bool): int
    requires w > 0
  {
    if signed && a >= Half(w) then a - Pow2(w) else a
  }

  /** Conversion to another width: by sign or zero extension, or by cutting. */
  function Convert(a: nat, w: nat, v: nat, signed: bool): (r: nat)
    requires w > 0
    ensures r < Pow2(v)
  {
    Wrap(View(a, w, signed), v)
  }

  lemma ViewSame(a: nat, w: nat, signed: bool)
    requires w > 0
    ensures Same(View(a, w, signed), a, Pow2(w))
  {
    assert View(a, w, signed) == a + (if signed && a >= Half(w) then -1 else 0) * Pow2(w);
  }

  lemma ViewWrap(a: nat, w: nat, signed: bool)
    requires w > 0 && a < Pow2(w)
    ensures Wrap(View(a, w, signed), w) == a
  {
    ViewSame(a, w, signed);
    SameMod(View(a, w, signed), a, Pow2(w));
    WrapSmall(a, w);
  }

  lemma {:induction false} Pow2Monotone(w: nat, v: nat)
    requires w <= v
    ensures Pow2(w) <= Pow2(v)
  {
    if w < v { Pow2Monotone(w, v - 1); }
  }

  lemma WrapNegative(x: int, w: nat)
    requires x < 0 <= x + Pow2(w)
    ensures Wrap(x, w) == x + Pow2(w)
  {
    ModUnique(x, -1, x + Pow2(w), Pow2(w));
  }

  lemma HalfTwice(w: nat)
    requires w > 0
    ensures Pow2(w) == 2 * Half(w)
  {}

  /** The numbers of width `w` are numbers of width `v`. */
  lemma ExtendRange(a: nat, w: nat, v: nat, signed: bool)
    requires 0 < w <= v && a < Pow2(w)
    ensures var x := View(a, w, signed);
            0 <= x + Half(v) && x < Pow2(v) && (signed || w < v ==> x < Half(v))
  {
    HalfTwice(w);
    HalfTwice(v);
    Pow2Monotone(w - 1, v - 1);
    if w < v { Pow2Monotone(w, v - 1); }
  }

  /** Extending with the right sign keeps the value. */
  lemma ExtendKeeps(a: nat, w: nat, v: nat, signed: bool)
    requires 0 < w <= v && a < Pow2(w)
    ensures w < v ==> View(Convert(a, w, v, signed), v, true) == View(a, w, signed)
    ensures View(Convert(a, w, v, signed), v, signed) == View(a, w, signed)
    ensures Wrap(Convert(a, w, v, signed), w) == a
  {
    var x := View(a, w, signed);
    ExtendRange(a, w, v, signed);
    HalfTwice(v);
    if x >= 0 { WrapSmall(x, v); } else { WrapNegative(x, v); }
    WrapWrap(x, w, v);
    ViewWrap(a, w, signed);
  }

  // ----- operations -----

  datatype Op = Add | Sub | Mul | And | Or | Xor | SDiv | UDiv | SRem | URem | Shl | Shr | Sar

  predicate Signed(op: Op) { op == SDiv || op == SRem || op == Sar }

  /** The operation depends on the sign of its operands. */
  predicate SignMatters(op: Op) {
    op == SDiv || op == UDiv || op == SRem || op == URem || op == Shr || op == Sar
  }

  predicate IsShift(op: Op) { op == Shl || op == Shr || op == Sar }

  /** Division rounds toward zero; what it gives for a zero divisor does not matter. */
  function Divide(a: int, b: int): int {
    if b == 0 then 0
    else if (a >= 0) == (b > 0) then Abs(a) / Abs(b) else -(Abs(a) / Abs(b))
  }

  function Abs(a: int): nat { if a < 0 then -a else a }

  /** A bitwise operation on the lowest `n` bits. */
  function Bits(op: Op, a: int, b: int, n: nat): nat
    decreases n
  {
    if n == 0 then 0 else 2 * Bits(op, a / 2, b / 2, n - 1) + Bit(op, a % 2, b % 2)
  }

  function Bit(op: Op, a: int, b: int): nat {
    match op
    case And => if a == 1 && b == 1 then 1 else 0
    case Or => if a == 1 || b == 1 then 1 else 0
    case _ => if a != b then 1 else 0
  }

  /** The mathematical result, of which the operation keeps the lowest bits. */
  function Exact(op: Op, a: int, b: int, w: nat): int {
    match op
    case Add => a + b
    case Sub => a - b
    case Mul => a * b
    case And => Bits(op, a, b, w)
    case Or => Bits(op, a, b, w)
    case Xor => Bits(op, a, b, w)
    case SDiv => Divide(a, b)
    case UDiv => Divide(a, b)
    case SRem => a - b * Divide(a, b)
    case URem => a - b * Divide(a, b)
    case Shl => if b < 0 then 0 else a * Pow2(b)
    case Shr => if b < 0 then 0 else a / Pow2(b)
    case Sar => if b < 0 then 0 else a / Pow2(b)
  }

  /** The operation at width `w`, on bits; a shift count is the number `b`. */
  function Apply(op: Op, a: nat, b: int, w: nat): (r: nat)
    requires w > 0 && (IsShift(op) || b >= 0)
    ensures r < Pow2(w)
  {
    Wrap(Exact(op, View(a, w, Signed(op)), if IsShift(op) then b else View(b, w, Signed(op)), w), w)
  }

  // ----- low bits of wider operations -----

  lemma HalfSame(x: int, y: int, n: nat)
    requires n > 0 && Same(x, y, Pow2(n))
    ensures x % 2 == y % 2 && Same(x / 2, y / 2, Pow2(n - 1))
  {
    var k: int :| x == y + k * Pow2(n);
    assert x == y + 2 * (k * Pow2(n - 1));
    assert x / 2 == y / 2 + k * Pow2(n - 1);
  }

  lemma {:induction false} BitsLow(op: Op, a: int, a2: int, b: int, b2: int, n: nat)
    requires Same(a, a2, Pow2(n)) && Same(b, b2, Pow2(n))
    ensures Bits(op, a, b, n) == Bits(op, a2, b2, n) && Bits(op, a, b, n) < Pow2(n)
    decreases n
  {
    if n > 0 {
      HalfSame(a, a2, n);
      HalfSame(b, b2, n);
      BitsLow(op, a / 2, a2 / 2, b / 2, b2 / 2, n - 1);
    }
  }

  lemma {:induction false} BitsCut(op: Op, a: int, b: int, n: nat, v: nat)
    requires n <= v
    ensures Same(Bits(op, a, b, v), Bits(op, a, b, n), Pow2(n))
    decreases n
  {
    if n == 0 {
      assert Bits(op, a, b, v) == 0 + Bits(op, a, b, v) * Pow2(0);
    } else {
      BitsCut(op, a / 2, b / 2, n - 1, v - 1);
      SameDouble(Bits(op, a / 2, b / 2, v - 1), Bits(op, a / 2, b / 2, n - 1), Bit(op, a % 2, b % 2), Pow2(n - 1));
    }
  }

  lemma SameDouble(x: int, y: int, bit: int, m: int)
    requires Same(x, y, m)
    ensures Same(2 * x + bit, 2 * y + bit, 2 * m)
  {
    var k: int :| x == y + k * m;
    assert 2 * x + bit == 2 * y + bit + k * (2 * m);
  }

  lemma SameTrans(x: int, y: int, z: int, m: int)
    requires Same(x, y, m) && Same(y, z, m)
    ensures Same(x, z, m)
  {
    var k: int :| x == y + k * m;
    var l: int :| y == z + l * m;
    assert x == z + (k + l) * m;
  }

  lemma SameSelf(x: int, m: int)
    ensures Same(x, x, m)
  {
    assert x == x + 0 * m;
  }

  lemma SameBack(x: int, y: int, m: int)
    requires Same(x, y, m)
    ensures Same(y, x, m)
  {
    var k: int :| x == y + k * m;
    assert y == x + (-k) * m;
  }

  lemma SameNarrow(x: int, y: int, w: nat, v: nat)
    requires w <= v && Same(x, y, Pow2(v))
    ensures Same(x, y, Pow2(w))
  {
    Pow2Add(w, v - w);
    SameFactor(x, y, Pow2(w), Pow2(v - w));
  }

  lemma SameFactor(x: int, y: int, p: int, q: int)
    requires Same(x, y, p * q)
    ensures Same(x, y, p)
  {
    var k: int :| x == y + k * (p * q);
    assert k * (p * q) == (k * q) * p;
  }

  lemma ShiftLow(a: int, a2: int, b: nat, m: int)
    requires Same(a, a2, m)
    ensures Same(a * Pow2(b), a2 * Pow2(b), m)
  {
    SameSelf(Pow2(b), m);
    SameRing(a, a2, Pow2(b), Pow2(b), m);
  }

  lemma BitsBoth(op: Op, a: int, a2: int, b: int, b2: int, w: nat, v: nat)
    requires w <= v && Same(a, a2, Pow2(w)) && Same(b, b2, Pow2(w))
    ensures Same(Bits(op, a, b, v), Bits(op, a2, b2, w), Pow2(w))
  {
    BitsCut(op, a, b, w, v);
    BitsLow(op, a, a2, b, b2, w);
  }

  /** The exact results at the two widths agree in the lowest bits. */
  lemma ExactLow(op: Op, a: int, a2: int, b: int, b2: int, w: nat, v: nat)
    requires w <= v && Same(a, a2, Pow2(w)) && (if IsShift(op) then b == b2 else Same(b, b2, Pow2(w)))
    requires SignMatters(op) ==> a == a2 && b == b2
    ensures Same(Exact(op, a, b, v), Exact(op, a2, b2, w), Pow2(w))
  {
    if SignMatters(op) {
      SameSelf(Exact(op, a, b, v), Pow2(w));
    } else if op == And || op == Or || op == Xor {
      BitsBoth(op, a, a2, b, b2, w, v);
    } else if op == Shl {
      if b >= 0 { ShiftLow(a, a2, b, Pow2(w)); } else { SameSelf(0, Pow2(w)); }
    } else {
      SameRing(a, a2, b, b2, Pow2(w));
    }
  }

  /** What promotion computes: extend, operate at width `v`, cut to width `w`. */
  function Promoted(op: Op, a: nat, b: int, w: nat, v: nat, signed: bool): nat
    requires 0 < w <= v && (IsShift(op) || b >= 0)
  {
    Wrap(Apply(op, Convert(a, w, v, signed), if IsShift(op) then b else Convert(b, w, v, signed), v), w)
  }

  predicate InRange(op: Op, a: nat, b: int, w: nat) { a < Pow2(w) && (IsShift(op) || 0 <= b < Pow2(w)) }

  /** Promotion: extending the operands, computing at the wider width and cutting the result is computing
      at the narrow width, where the signs match if they matter. */
  lemma Promotion(op: Op, a: nat, b: int, w: nat, v: nat, signed: bool)
    requires 0 < w <= v && InRange(op, a, b, w) && (SignMatters(op) ==> signed == Signed(op))
    ensures Promoted(op, a, b, w, v, signed) == Apply(op, a, b, w)
  {
    var a1, b1 := Convert(a, w, v, signed), if IsShift(op) then b else Convert(b, w, v, signed);
    var x, y := View(a1, v, Signed(op)), if IsShift(op) then b1 else View(b1, v, Signed(op));
    var x2, y2 := View(a, w, Signed(op)), if IsShift(op) then b else View(b, w, Signed(op));
    ExtendKeeps(a, w, v, signed);
    Widened(a, w, v, signed, Signed(op));
    if !IsShift(op) {
      ExtendKeeps(b, w, v, signed);
      Widened(b, w, v, signed, Signed(op));
    }
    ExactLow(op, x, x2, y, y2, w, v);
    WrapWrap(Exact(op, x, y, v), w, v);
    SameMod(Exact(op, x, y, v), Exact(op, x2, y2, w), Pow2(w));
  }

  /** The lowest bits of an extended operand, seen with any sign. */
  lemma Widened(a: nat, w: nat, v: nat, signed: bool, seen: bool)
    requires 0 < w <= v && a < Pow2(w)
    ensures Same(View(Convert(a, w, v, signed), v, seen), View(a, w, seen), Pow2(w))
  {
    var m, c := Pow2(w), Convert(a, w, v, signed);
    var x, y := View(c, v, seen), View(a, w, seen);
    ViewSame(c, v, seen);
    SameNarrow(x, c, w, v);
    ExtendKeeps(a, w, v, signed);
    ModSame(c, m);
    SameBack(a, c, m);
    ViewSame(a, w, seen);
    SameBack(y, a, m);
    SameTrans(x, c, a, m);
    SameTrans(x, a, y, m);
  }

  // ----- when promotion is right -----

  ghost predicate PromotesExactly(op: Op, w: nat, v: nat, signed: bool)
    requires 0 < w <= v
  {
    forall a: nat, b: int :: InRange(op, a, b, w) ==> Promoted(op, a, b, w, v, signed) == Apply(op, a, b, w)
  }

  predicate Divides(b: nat, d: int)
    requires b > 0
  {
    d % b == 0
  }

  /** What sign extension adds to a negative number. */
  function Added(w: nat, v: nat): nat
    requires w <= v
  {
    Pow2Monotone(w, v);
    Pow2(v) - Pow2(w)
  }

  /** Sign extension changes no unsigned remainder: every positive divisor divides what it adds. */
  ghost predicate RemaindersAgree(w: nat, v: nat)
    requires 0 < w <= v
  {
    forall b: nat :: 1 <= b < Half(w) ==> Divides(b, Added(w, v))
  }

  predicate Mismatched(op: Op, signed: bool) { SignMatters(op) && signed != Signed(op) }

  /** Promotion computes the narrow operation on all operands exactly when the signs match, if they matter,
      or the operation is an unsigned remainder at widths at which sign extension adds a common multiple. */
  lemma PromotionExact(op: Op, w: nat, v: nat, signed: bool)
    requires 3 <= w < v
    ensures PromotesExactly(op, w, v, signed) <==> (Mismatched(op, signed) ==> op == URem && RemaindersAgree(w, v))
  {
    if !Mismatched(op, signed) {
      forall a: nat, b: int | InRange(op, a, b, w)
        ensures Promoted(op, a, b, w, v, signed) == Apply(op, a, b, w)
      {
        Promotion(op, a, b, w, v, signed);
      }
    } else if op == URem {
      RemainderExact(w, v);
    } else {
      Halves(w, v);
      var b := Mismatch(op, w, v, signed);
      assert InRange(op, Half(w), b, w);
    }
  }

  /** The widths of C's integer types leave the unsigned remainder no such excuse. */
  lemma PromotionSigns(op: Op, w: nat, v: nat, signed: bool)
    requires 6 <= w < v && (v - w) % 18 != 0
    ensures PromotesExactly(op, w, v, signed) <==> (SignMatters(op) ==> signed == Signed(op))
  {
    PromotionExact(op, w, v, signed);
    RemaindersDiffer(w, v);
  }

  lemma Halves(w: nat, v: nat)
    requires 3 <= w < v
    ensures Half(w) == 2 * Pow2(w - 2) && Pow2(w) == 4 * Pow2(w - 2) && Pow2(w - 2) >= 2
    ensures Pow2(w) <= Half(v) && Pow2(v) == 2 * Half(v) && Same(Half(v), 0, Pow2(w))
  {
    assert Pow2(w) == 2 * Pow2(w - 1) && Pow2(w - 1) == 2 * Pow2(w - 2) && Pow2(w - 2) == 2 * Pow2(w - 3);
    Pow2Monotone(w, v - 1);
    Pow2Add(w, v - 1 - w);
    assert Half(v) == 0 + Pow2(v - 1 - w) * Pow2(w);
  }

  /** The smallest negative number, extended with either sign. */
  lemma ExtendHalf(w: nat, v: nat)
    requires 3 <= w < v
    ensures Convert(Half(w), w, v, false) == Half(w) && Convert(Half(w), w, v, true) == Pow2(v) - Half(w)
  {
    Halves(w, v);
    WrapSmall(Half(w), v);
    ModUnique(0 - Half(w), -1, Pow2(v) - Half(w), Pow2(v));
  }

  lemma ExtendSmall(b: nat, w: nat, v: nat, signed: bool)
    requires 3 <= w < v && b < Half(w)
    ensures Convert(b, w, v, signed) == b
  {
    Halves(w, v);
    WrapSmall(b, v);
  }

  /** Halving the extended number in the wrong sign. */
  lemma WrongHalves(w: nat, v: nat)
    requires 3 <= w < v
    ensures Wrap(0 - Pow2(w - 2), w) == 3 * Pow2(w - 2) && Wrap(Pow2(w - 2), w) == Pow2(w - 2)
    ensures Wrap(Half(v) - Pow2(w - 2), w) == 3 * Pow2(w - 2)
  {
    var q: int, m: int := Pow2(w - 2), Pow2(w);
    Halves(w, v);
    WrapSmall(q, w);
    ModUnique(0 - q, -1, 3 * q, m);
    SameSelf(q, m);
    SameRing(Half(v), 0, q, q, m);
    SameMod(Half(v) - q, 0 - q, m);
  }

  /** Operands on which a sign-sensitive operation of the wrong sign goes wrong: the smallest negative
      number, and minus one, two or a shift by one. */
  lemma Mismatch(op: Op, w: nat, v: nat, signed: bool) returns (b: nat)
    requires 3 <= w < v && Mismatched(op, signed) && op != URem
    ensures IsShift(op) || b < Pow2(w)
    ensures Promoted(op, Half(w), b, w, v, signed) != Apply(op, Half(w), b, w)
  {
    b := if op == SDiv || op == SRem then Pow2(w) - 1 else if op == UDiv then 2 else 1;
    MismatchAt(op, w, v, signed, b);
  }

  lemma MismatchAt(op: Op, w: nat, v: nat, signed: bool, b: nat)
    requires 3 <= w < v && Mismatched(op, signed) && op != URem
    requires b == if op == SDiv || op == SRem then Pow2(w) - 1 else if op == UDiv then 2 else 1
    ensures 2 < Pow2(w) && Promoted(op, Half(w), b, w, v, signed) != Apply(op, Half(w), b, w)
  {
    Halves(w, v);
    match op
    case SDiv => NarrowByMinusOne(w, Half(w), b); WideByMinusOne(w, v);
    case SRem => NarrowByMinusOne(w, Half(w), b); WideByMinusOne(w, v);
    case UDiv => UnsignedHalf(w, v);
    case Shr => UnsignedShift(w, v);
    case Sar => SignedShift(w, v);
  }

  lemma DivideByMinusOne(h: nat)
    ensures Divide(0 - h, -1) == h
  {
    assert Abs(0 - h) / 1 == h;
  }

  lemma DivideSmall(h: nat, b: nat)
    requires h < b
    ensures Divide(h, b) == 0
  {
    ModUnique(h, 0, h, b);
    assert h / b == 0;
  }

  lemma ExactByMinusOne(h: nat, w: nat)
    ensures Exact(SDiv, 0 - h, -1, w) == h && Exact(SRem, 0 - h, -1, w) == 0
  {
    DivideByMinusOne(h);
  }

  lemma ApplyIs(op: Op, a: nat, b: nat, w: nat, x: int, y: int)
    requires w > 0 && !IsShift(op) && View(a, w, Signed(op)) == x && View(b, w, Signed(op)) == y
    ensures Apply(op, a, b, w) == Wrap(Exact(op, x, y, w), w)
  {}

  lemma ViewHalf(w: nat)
    requires w >= 2
    ensures View(Half(w), w, true) == 0 - Half(w) && View(Pow2(w) - 1, w, true) == -1
  {
    HalfTwice(w);
  }

  lemma ApplyMinusOne(h: nat, b: nat, w: nat)
    requires w > 0 && h < Pow2(w) && View(h, w, true) == 0 - h && View(b, w, true) == -1
    ensures Apply(SDiv, h, b, w) == h && Apply(SRem, h, b, w) == 0
  {
    ApplyIs(SDiv, h, b, w, 0 - h, -1);
    ApplyIs(SRem, h, b, w, 0 - h, -1);
    ExactByMinusOne(h, w);
    WrapSmall(h, w);
    WrapSmall(0, w);
  }

  lemma NarrowByMinusOne(w: nat, h: nat, b: nat)
    requires 3 <= w && h == Half(w) && b == Pow2(w) - 1
    ensures Apply(SDiv, h, b, w) == h && Apply(SRem, h, b, w) == 0
  {
    ViewHalf(w);
    HalfTwice(w);
    ApplyMinusOne(h, b, w);
  }

  lemma WideByMinusOne(w: nat, v: nat)
    requires 3 <= w < v
    ensures Pow2(w) >= 1 && Promoted(SDiv, Half(w), Pow2(w) - 1, w, v, false) == 0
    ensures Promoted(SRem, Half(w), Pow2(w) - 1, w, v, false) == Half(w)
  {
    var h, b := Half(w), Pow2(w) - 1;
    Halves(w, v);
    WrapSmall(h, v);
    WrapSmall(b, v);
    assert Convert(h, w, v, false) == h && Convert(b, w, v, false) == b;
    assert View(h, v, true) == h && View(b, v, true) == b;
    DivideSmall(h, b);
    assert Exact(SDiv, h, b, v) == 0 && Exact(SRem, h, b, v) == h;
    WrapSmall(0, v);
    WrapSmall(0, w);
    WrapSmall(h, w);
  }

  lemma DivideByTwo(x: nat, q: nat)
    requires x == 2 * q
    ensures Divide(x, 2) == q && x / 2 == q
  {}

  lemma SignedShift(w: nat, v: nat)
    requires 3 <= w < v
    ensures Apply(Sar, Half(w), 1, w) == 3 * Pow2(w - 2) && Promoted(Sar, Half(w), 1, w, v, false) == Pow2(w - 2)
  {
    var h: int, q: int := Half(w), Pow2(w - 2);
    Halves(w, v);
    ExtendHalf(w, v);
    WrongHalves(w, v);
    assert Pow2(1) == 2 * Pow2(0);
    assert View(h, w, true) == 0 - h && Exact(Sar, 0 - h, 1, w) == 0 - q;
    assert View(h, v, true) == h && Exact(Sar, h, 1, v) == q;
    WrapSmall(q, v);
  }

  lemma UnsignedShift(w: nat, v: nat)
    requires 3 <= w < v
    ensures Apply(Shr, Half(w), 1, w) == Pow2(w - 2) && Promoted(Shr, Half(w), 1, w, v, true) == 3 * Pow2(w - 2)
  {
    var h, q, e := Half(w), Pow2(w - 2), Pow2(v) - Half(w);
    Halves(w, v);
    ExtendHalf(w, v);
    WrongHalves(w, v);
    assert Pow2(1) == 2 * Pow2(0);
    assert Exact(Shr, h, 1, w) == q && Exact(Shr, e, 1, v) == Half(v) - q;
    WrapSmall(Half(v) - q, v);
  }

  lemma PromotedIs(op: Op, a: nat, b: nat, w: nat, v: nat, signed: bool, x: nat, y: nat)
    requires 0 < w <= v && !IsShift(op) && Convert(a, w, v, signed) == x && Convert(b, w, v, signed) == y
    ensures Promoted(op, a, b, w, v, signed) == Wrap(Apply(op, x, y, v), w)
  {}

  lemma UnsignedHalf(w: nat, v: nat)
    requires 3 <= w < v
    ensures Apply(UDiv, Half(w), 2, w) == Pow2(w - 2) && Promoted(UDiv, Half(w), 2, w, v, true) == 3 * Pow2(w - 2)
  {
    Halves(w, v);
    WrongHalves(w, v);
    UnsignedHalfAt(w, v, Half(w), Pow2(w - 2), Half(v));
  }

  lemma UnsignedHalfAt(w: nat, v: nat, h: nat, q: nat, p: nat)
    requires 3 <= w < v && h == Half(w) && h == 2 * q && 2 < h < p && Pow2(v) == 2 * p
    requires Wrap(q, w) == q && Wrap(p - q, w) == 3 * q
    ensures Apply(UDiv, h, 2, w) == q && Promoted(UDiv, h, 2, w, v, true) == 3 * q
  {
    ApplyHalf(h, q, w);
    UnsignedWide(w, v, h, 2 * p - h, p - q);
  }

  lemma UnsignedWide(w: nat, v: nat, h: nat, e: nat, q: nat)
    requires 3 <= w < v && h == Half(w) && e == Pow2(v) - h == 2 * q && 2 < h
    ensures Promoted(UDiv, h, 2, w, v, true) == Wrap(q, w)
  {
    assert Convert(h, w, v, true) == e by { ExtendHalf(w, v); }
    assert Convert(2, w, v, true) == 2 by { ExtendSmall(2, w, v, true); }
    PromotedIs(UDiv, h, 2, w, v, true, e, 2);
    ApplyHalf(e, q, v);
    WrapSmall(q, v);
  }

  lemma ApplyHalf(x: nat, q: nat, w: nat)
    requires w > 0 && x == 2 * q
    ensures Apply(UDiv, x, 2, w) == Wrap(q, w)
  {
    DivideByTwo(x, q);
    ApplyIs(UDiv, x, 2, w, x, 2);
  }

  // ----- unsigned remainders -----

  lemma ExtendSigned(a: nat, w: nat, v: nat)
    requires 3 <= w < v && a < Pow2(w)
    ensures Convert(a, w, v, true) == if a < Half(w) then a else a + Added(w, v)
  {
    Halves(w, v);
    if a < Half(w) { WrapSmall(a, v); } else { ModUnique(a - Pow2(w), -1, a + Added(w, v), Pow2(v)); }
  }

  /** The unsigned remainder as a number; a zero divisor leaves the dividend. */
  function Remainder(a: nat, b: nat): nat { if b == 0 then a else a % b }

  lemma RemainderBelow(a: nat, b: nat)
    requires b > 0
    ensures Divide(a, b) == a / b && a - b * Divide(a, b) == a % b && a % b <= a
  {
    if a < b { ModUnique(a, 0, a, b); }
  }

  lemma RemainderValue(a: nat, b: nat, w: nat)
    requires 0 < w && a < Pow2(w) && b < Pow2(w)
    ensures Apply(URem, a, b, w) == Remainder(a, b)
  {
    if b > 0 { RemainderBelow(a, b); }
    assert View(a, w, false) == a && View(b, w, false) == b;
    assert Exact(URem, a, b, w) == Remainder(a, b);
    WrapSmall(Remainder(a, b), w);
  }

  /** The remainder of the extended operands, cut. */
  function WideRemainder(a: nat, b: nat, w: nat, v: nat): nat
    requires 0 < w
  {
    Wrap(Remainder(Convert(a, w, v, true), Convert(b, w, v, true)), w)
  }

  lemma PromotedRemainder(a: nat, b: nat, w: nat, v: nat)
    requires 3 <= w < v && a < Pow2(w) && b < Pow2(w)
    ensures Promoted(URem, a, b, w, v, true) == WideRemainder(a, b, w, v)
  {
    RemainderValue(Convert(a, w, v, true), Convert(b, w, v, true), v);
  }

  lemma ModAdd(a: nat, d: nat, b: nat)
    requires b > 0
    ensures (a + d) % b == a % b <==> d % b == 0
  {
    var q, r, s, t := d / b, d % b, a / b, a % b;
    if r == 0 {
      ModUnique(a + d, q + s, t, b);
    } else if t + r < b {
      ModUnique(a + d, q + s, t + r, b);
    } else {
      ModUnique(a + d, q + s + 1, t + r - b, b);
    }
  }

  lemma AddMultiple(a: nat, k: int, m: nat)
    requires a < m
    ensures (a + k * m) % m == a
  {
    ModUnique(a + k * m, k, a, m);
  }

  lemma AddedFactor(w: nat, v: nat)
    requires w <= v
    ensures Added(w, v) == (Pow2(v - w) - 1) * Pow2(w)
  {
    Pow2Add(w, v - w);
  }

  lemma AddedIsLow(a: nat, w: nat, v: nat)
    requires 3 <= w < v && a < Pow2(w)
    ensures Wrap(a + Added(w, v), w) == a
  {
    AddedFactor(w, v);
    AddMultiple(a, Pow2(v - w) - 1, Pow2(w));
  }

  /** The remainder by a divisor that is above half of the dividend. */
  lemma RemainderOnce(a: nat, b: nat)
    requires b > 0 && a < 2 * b
    ensures Remainder(a, b) == if a < b then a else a - b
  {
    if a < b { ModUnique(a, 0, a, b); } else { ModUnique(a, 1, a - b, b); }
  }

  /** Negative divisors never matter. */
  lemma NegativeDivisor(a: nat, b: nat, w: nat, v: nat)
    requires 3 <= w < v && a < Pow2(w) && Half(w) <= b < Pow2(w)
    ensures WideRemainder(a, b, w, v) == Remainder(a, b)
  {
    var d := Added(w, v);
    var x, y := if a < Half(w) then a else a + d, b + d;
    assert Convert(a, w, v, true) == x by { ExtendSigned(a, w, v); }
    assert Convert(b, w, v, true) == y by { ExtendSigned(b, w, v); }
    WideRemainderIs(a, b, w, v, x, y);
    ExtendedRemainder(a, b, d, w, v);
  }

  lemma WideRemainderIs(a: nat, b: nat, w: nat, v: nat, x: nat, y: nat)
    requires 0 < w && Convert(a, w, v, true) == x && Convert(b, w, v, true) == y
    ensures WideRemainder(a, b, w, v) == Wrap(Remainder(x, y), w)
  {}

  lemma ExtendedRemainder(a: nat, b: nat, d: nat, w: nat, v: nat)
    requires 3 <= w < v && a < Pow2(w) && Half(w) <= b < Pow2(w) && d == Added(w, v)
    ensures Wrap(Remainder(if a < Half(w) then a else a + d, b + d), w) == Remainder(a, b)
  {
    HalfTwice(w);
    RemainderOnce(a, b);
    RemainderOnce(if a < Half(w) then a else a + d, b + d);
    AddedIsLow(a, w, v);
    WrapSmall(Remainder(a, b), w);
  }

  lemma PositiveDivisor(a: nat, b: nat, w: nat, v: nat)
    requires 3 <= w < v && a < Pow2(w) && 1 <= b < Half(w)
    ensures WideRemainder(a, b, w, v) == Remainder(a, b) <==> a < Half(w) || Divides(b, Added(w, v))
  {
    var d := Added(w, v);
    Halves(w, v);
    ExtendSigned(a, w, v);
    ExtendSigned(b, w, v);
    WrapSmall(a % b, w);
    WrapSmall((a + d) % b, w);
    ModAdd(a, d, b);
  }

  lemma ZeroDivisor(a: nat, w: nat, v: nat)
    requires 3 <= w < v && a < Pow2(w)
    ensures WideRemainder(a, 0, w, v) == a
  {
    Halves(w, v);
    ExtendSigned(a, w, v);
    ExtendSigned(0, w, v);
    if a < Half(w) { WrapSmall(a, w); } else { AddedIsLow(a, w, v); }
  }

  lemma RemainderAgrees(a: nat, b: nat, w: nat, v: nat)
    requires 3 <= w < v && a < Pow2(w) && b < Pow2(w) && RemaindersAgree(w, v)
    ensures Promoted(URem, a, b, w, v, true) == Apply(URem, a, b, w)
  {
    RemainderValue(a, b, w);
    PromotedRemainder(a, b, w, v);
    if b == 0 {
      ZeroDivisor(a, w, v);
    } else if b < Half(w) {
      assert Divides(b, Added(w, v));
      PositiveDivisor(a, b, w, v);
    } else {
      NegativeDivisor(a, b, w, v);
    }
  }

  lemma RemainderDivides(b: nat, w: nat, v: nat)
    requires 3 <= w < v && PromotesExactly(URem, w, v, true) && 1 <= b < Half(w)
    ensures Divides(b, Added(w, v))
  {
    assert Pow2(w) == 2 * Half(w);
    assert InRange(URem, Half(w), b, w);
    RemainderValue(Half(w), b, w);
    PromotedRemainder(Half(w), b, w, v);
    PositiveDivisor(Half(w), b, w, v);
  }

  lemma RemainderExact(w: nat, v: nat)
    requires 3 <= w < v
    ensures PromotesExactly(URem, w, v, true) <==> RemaindersAgree(w, v)
  {
    if RemaindersAgree(w, v) {
      forall a: nat, b: int | InRange(URem, a, b, w)
        ensures Promoted(URem, a, b, w, v, true) == Apply(URem, a, b, w)
      {
        RemainderAgrees(a, b, w, v);
      }
    } else if PromotesExactly(URem, w, v, true) {
      var b: nat :| 1 <= b < Half(w) && !Divides(b, Added(w, v));
      RemainderDivides(b, w, v);
      assert false;
    }
  }

  /** The powers of two modulo nineteen. */
  function PowerModNineteen(k: nat): nat {
    if k == 0 then 1 else if k == 1 then 2 else if k == 2 then 4 else if k == 3 then 8 else if k == 4 then 16
    else if k == 5 then 13 else if k == 6 then 7 else if k == 7 then 14 else if k == 8 then 9 else if k == 9 then 18
    else if k == 10 then 17 else if k == 11 then 15 else if k == 12 then 11 else if k == 13 then 3
    else if k == 14 then 6 else if k == 15 then 12 else if k == 16 then 5 else 10
  }

  lemma DoubleModNineteen(x: nat, k: nat)
    requires k < 18 && x % 19 == PowerModNineteen(k)
    ensures (2 * x) % 19 == PowerModNineteen(if k == 17 then 0 else k + 1)
  {
    DoubleMod(x, 19);
  }

  lemma NextIndex(n: nat)
    ensures (n + 1) % 18 == if n % 18 == 17 then 0 else n % 18 + 1
  {}

  lemma DoubleMod(x: nat, m: nat)
    requires m > 0
    ensures (2 * x) % m == (2 * (x % m)) % m
  {
    assert 2 * x == 2 * (x % m) + (2 * (x / m)) * m;
    SameMod(2 * x, 2 * (x % m), m);
  }

  lemma {:induction false} PowersModNineteen(n: nat)
    ensures Pow2(n) % 19 == PowerModNineteen(n % 18)
  {
    if n > 0 {
      PowersModNineteen(n - 1);
      NextIndex(n - 1);
      DoubleModNineteen(Pow2(n - 1), (n - 1) % 18);
    }
  }

  lemma DistinctModNineteen(i: nat, j: nat)
    requires i < 18 && j < 18 && PowerModNineteen(i) == PowerModNineteen(j)
    ensures i == j
  {}

  lemma SameRest(x: nat, y: nat, m: nat)
    requires m > 0 && y <= x
    ensures (x - y) % m == 0 <==> x % m == y % m
  {
    ModAdd(y, x - y, m);
  }

  /** Where the two widths do not differ by a multiple of eighteen, nineteen is a divisor that shows it. */
  lemma RemaindersDiffer(w: nat, v: nat)
    requires 6 <= w < v && (v - w) % 18 != 0
    ensures !RemaindersAgree(w, v)
  {
    Pow2Monotone(5, w - 1);
    assert Pow2(5) == 2 * Pow2(4) && Pow2(4) == 16;
    assert 19 < Half(w);
    Pow2Monotone(w, v);
    if Divides(19, Added(w, v)) {
      PowersModNineteen(v);
      PowersModNineteen(w);
      SameRest(Pow2(v), Pow2(w), 19);
      DistinctModNineteen(v % 18, w % 18);
      SameRest(v, w, 18);
    }
  }

  lemma Powers()
    ensures Pow2(7) == 128 && Pow2(8) == 256 && Pow2(31) == 2147483648 && Pow2(32) == 4294967296
  {
    Pow2Add(4, 3);
    Pow2Add(8, 8);
    Pow2Add(16, 16);
    assert Pow2(4) == 16 && Pow2(8) == 256 && Pow2(16) == 65536;
    assert Pow2(32) == 2 * Pow2(31);
  }

  /** A concrete case: (-2) / 2 in unsigned bytes. */
  lemma PromotionNeedsSigns()
    ensures Promoted(SDiv, 254, 2, 8, 32, false) == 127 && Apply(SDiv, 254, 2, 8) == 255
    ensures !PromotesExactly(SDiv, 8, 32, false)
  {
    Powers();
    WrapSmall(254, 32);
    WrapSmall(2, 32);
    assert View(254, 32, true) == 254 && View(2, 32, true) == 2 && Divide(254, 2) == 127;
    WrapSmall(127, 32);
    WrapSmall(127, 8);
    assert View(254, 8, true) == -2 && View(2, 8, true) == 2 && Divide(-2, 2) == -1;
    ModUnique(-1, -1, 255, 256);
    assert InRange(SDiv, 254, 2, 8);
  }
}
