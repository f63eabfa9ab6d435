/** What an expression computes, by the operations of the dialect, is what a reader of the text printed for it
    computes, by the operators of C. */
module PrintedMeaning {
  import opened Wrappers
  import opened CTokens
  import opened CParser
  import opened CPrinter
  import opened CPrintable
  import opened CRoundTrip
  import opened CExactness
  import opened CMeaning

  // ----- what an expression computes -----

  /** The operations that evaluate both operands.  Integer operations take numbers, the others are named after
      the pointers that they take. */
  function Apply(o: InfixOp, a: Value, b: Value): Option<Value> {
    match o
    case PtrAdd =>
      if a.Ptr? && b.Num? then Some(Ptr(Move(a.p, b.n)))
      else if a.Num? && b.Ptr? then Some(Ptr(Move(b.p, a.n)))
      else None
    case PtrSub => if a.Ptr? && b.Num? then Some(Ptr(Move(a.p, -b.n))) else None
    case PtrDiff =>
      if a.Ptr? && b.Ptr? && Base(a.p) == Base(b.p) then Some(Num(Offset(a.p) - Offset(b.p))) else None
    case CmpEq => if a.Object? || b.Object? then None else Some(Truth(a == b))
    case CmpNe => if a.Object? || b.Object? then None else Some(Truth(a != b))
    case UCmpLt => if Comparable(a, b) then Some(Truth(Rank(a) < Rank(b))) else None
    case UCmpGt => if Comparable(a, b) then Some(Truth(Rank(b) < Rank(a))) else None
    case UCmpLe => if Comparable(a, b) then Some(Truth(!(Rank(b) < Rank(a)))) else None
    case UCmpGe => if Comparable(a, b) then Some(Truth(!(Rank(a) < Rank(b)))) else None
    case _ => if a.Num? && b.Num? then ApplyNumbers(o, a.n, b.n) else None
  }

  function ApplyNumbers(o: InfixOp, a: int, b: int): Option<Value> {
    match o
    case Mul => Some(Num(a * b))
    case SDiv => if b == 0 then None else Some(Num(Quotient(a, b)))
    case UDiv => if b == 0 then None else Some(Num(Quotient(a, b)))
    case SRem => if b == 0 then None else Some(Num(Remainder(a, b)))
    case URem => if b == 0 then None else Some(Num(Remainder(a, b)))
    case Add => Some(Num(a + b))
    case Sub => Some(Num(a - b))
    case Shl => if b < 0 then None else Some(Num(a * Power(b)))
    case Shr => if b < 0 then None else Some(Num(ShiftedRight(a, b)))
    case Sar => if b < 0 then None else Some(Num(ShiftedRight(a, b)))
    case SCmpLt => Some(Truth(a < b))
    case SCmpGt => Some(Truth(b < a))
    case SCmpLe => Some(Truth(!(b < a)))
    case SCmpGe => Some(Truth(!(a < b)))
    case BitAnd => Some(Num(Conjoin(a, b)))
    case BitXor => Some(Num(Differing(a, b)))
    case BitOr => Some(Num(Disjoin(a, b)))
    case _ => None
  }

  function ApplyUnary(op: PrefixOp, v: Value): Option<Value> {
    match op
    case Neg => if v.Num? then Some(Num(0 - v.n)) else None
    case BitNot => if v.Num? then Some(Num(-1 - v.n)) else None
    case LogicalNot => if Holds(v).Some? then Some(Truth(!Holds(v).value)) else None
    case _ => None
  }

  /** The neighbour of a number or of a place. */
  function Next(v: Value, up: bool): Option<Value> {
    match v
    case Num(n) => Some(Num(if up then n + 1 else n - 1))
    case Ptr(p) => Some(Ptr(Move(p, if up then 1 else -1)))
    case Object(_, _) => None
  }

  function Step<M>(w: World<M>, up: bool, p: Place, m: M): Outcome<Change, M> {
    match w.load(m, p)
    case None => Stuck
    case Some(v) =>
      match Next(v, up)
      case None => Stuck
      case Some(n) => match w.store(m, p, n) case None => Stuck case Some(m') => Then(Change(p, v, n), m')
  }

  function ValueOf<M>(w: World<M>, e: Expr, m: M): Outcome<Value, M>
    decreases e, 4
  {
    match e
    case Leaf(x) => (match w.words(x) case Constant(v) => Then(v, m) case Stored(p) => Lift(w.load(m, p), m))
    case Undef(t) => Then(w.undefined(t), m)
    case Aggregate(t, es) => (
      match ListOf(w, es, m) case Stuck => Stuck case Then(vs, m1) => Then(Object(t, vs), m1))
    case Intrinsic(x, es) => (
      match ListOf(w, es, m) case Stuck => Stuck case Then(vs, m1) => Lift(w.intrinsic(x, Operands(vs)), m1))
    case IntrinsicCast(x, t, a) => (
      match ValueOf(w, a, m)
      case Stuck => Stuck
      case Then(v, m1) => Lift(w.intrinsic(x, [Type(t), Computed(v)]), m1))
    case Access(x, arrow, f) =>
      if arrow then Loaded(w, e, m)
      else (match ValueOf(w, x, m) case Stuck => Stuck case Then(v, m1) => Lift(w.select(v, f), m1))
    case Subscript(_, _) => Loaded(w, e, m)
    case Call(f, es) => (
      match ValueOf(w, f, m)
      case Stuck => Stuck
      case Then(v, m1) => match ListOf(w, es, m1) case Stuck => Stuck case Then(vs, m2) => w.call(v, vs, m2))
    case PostStep(inc, x) => (match Stepped(w, inc, x, m) case Stuck => Stuck case Then(c, m1) => Then(c.before, m1))
    case BitCast(t, x) => (
      match ValueOf(w, x, m) case Stuck => Stuck case Then(v, m1) => Lift(w.reinterpret(t, v), m1))
    case Implicit(x) => ValueOf(w, x, m)
    case Cast(t, x) => (match ValueOf(w, x, m) case Stuck => Stuck case Then(v, m1) => Lift(w.convert(t, v), m1))
    case Prefix(op, x) => PrefixOf(w, op, x, m)
    case Infix(_, _, _) => InfixOf(w, e, m)
    case Ternary(c, a, b) => (
      match ValueOf(w, c, m)
      case Stuck => Stuck
      case Then(v, m1) =>
        if Holds(v).None? then Stuck else if Holds(v).value then ValueOf(w, a, m1) else ValueOf(w, b, m1))
  }

  function PrefixOf<M>(w: World<M>, op: PrefixOp, x: Expr, m: M): Outcome<Value, M>
    decreases x, 6
  {
    match op
    case Increment => (match Stepped(w, true, x, m) case Stuck => Stuck case Then(c, m1) => Then(c.after, m1))
    case Decrement => (match Stepped(w, false, x, m) case Stuck => Stuck case Then(c, m1) => Then(c.after, m1))
    case Addressof => (match PlaceOf(w, x, m) case Stuck => Stuck case Then(p, m1) => Then(Ptr(p), m1))
    case Indirection => (match Pointee(w, x, m) case Stuck => Stuck case Then(p, m1) => Lift(w.load(m1, p), m1))
    case _ => match ValueOf(w, x, m) case Stuck => Stuck case Then(v, m1) => Lift(ApplyUnary(op, v), m1)
  }

  function InfixOf<M>(w: World<M>, e: Expr, m: M): Outcome<Value, M>
    requires e.Infix?
    decreases e, 1
  {
    if e.o == Assign then
      match AssignedBy(w, e, m) case Stuck => Stuck case Then(c, m1) => Then(c.v, m1)
    else
      match ValueOf(w, e.l, m)
      case Stuck => Stuck
      case Then(a, m1) =>
        if e.o == CommaOp then ValueOf(w, e.r, m1)
        else if e.o == LogicalAnd then
          if Holds(a) == Some(false) then Then(Truth(false), m1)
          else if Holds(a) == Some(true) then ConditionOf(w, e.r, m1)
          else Stuck
        else if e.o == LogicalOr then
          if Holds(a) == Some(true) then Then(Truth(true), m1)
          else if Holds(a) == Some(false) then ConditionOf(w, e.r, m1)
          else Stuck
        else match ValueOf(w, e.r, m1) case Stuck => Stuck case Then(b, m2) => Lift(Apply(e.o, a, b), m2)
  }

  /** Whether the condition holds, as a number. */
  function ConditionOf<M>(w: World<M>, x: Expr, m: M): Outcome<Value, M>
    decreases x, 5
  {
    match ValueOf(w, x, m)
    case Stuck => Stuck
    case Then(v, m1) => if Holds(v).None? then Stuck else Then(Truth(Holds(v).value), m1)
  }

  function AssignedBy<M>(w: World<M>, e: Expr, m: M): Outcome<Assigned, M>
    requires e.Infix?
    decreases e, 0
  {
    match PlaceOf(w, e.l, m)
    case Stuck => Stuck
    case Then(p, m1) =>
      match ValueOf(w, e.r, m1)
      case Stuck => Stuck
      case Then(v, m2) => match w.store(m2, p, v) case None => Stuck case Some(m3) => Then(Assigned(p, v), m3)
  }

  function Stepped<M>(w: World<M>, up: bool, x: Expr, m: M): Outcome<Change, M>
    decreases x, 5
  {
    match PlaceOf(w, x, m) case Stuck => Stuck case Then(p, m1) => Step(w, up, p, m1)
  }

  function Pointee<M>(w: World<M>, x: Expr, m: M): Outcome<Place, M>
    decreases x, 5
  {
    match ValueOf(w, x, m) case Stuck => Stuck case Then(v, m1) => if v.Ptr? then Then(v.p, m1) else Stuck
  }

  function Loaded<M>(w: World<M>, e: Expr, m: M): Outcome<Value, M>
    decreases e, 3
  {
    match PlaceOf(w, e, m) case Stuck => Stuck case Then(p, m1) => Lift(w.load(m1, p), m1)
  }

  /** The place that an lvalue of the dialect stands for. */
  function PlaceOf<M>(w: World<M>, e: Expr, m: M): Outcome<Place, M>
    decreases e, 2
  {
    match e
    case Leaf(x) => (match w.words(x) case Constant(_) => Stuck case Stored(p) => Then(p, m))
    case Access(x, arrow, f) => (
      match (if arrow then Pointee(w, x, m) else PlaceOf(w, x, m))
      case Stuck => Stuck
      case Then(p, m1) => Then(Field(p, f), m1))
    case Subscript(x, i) => (
      match ValueOf(w, x, m)
      case Stuck => Stuck
      case Then(a, m1) =>
        match ValueOf(w, i, m1)
        case Stuck => Stuck
        case Then(b, m2) => if a.Ptr? && b.Num? then Then(Move(a.p, b.n), m2) else Stuck)
    case PostStep(inc, x) => (match Stepped(w, inc, x, m) case Stuck => Stuck case Then(c, m1) => Then(c.p, m1))
    case Prefix(op, x) =>
      if op == Indirection then Pointee(w, x, m)
      else if op == Increment || op == Decrement then (
        match Stepped(w, op == Increment, x, m) case Stuck => Stuck case Then(c, m1) => Then(c.p, m1))
      else Stuck
    case Infix(o, l, r) =>
      if o == Assign then (match AssignedBy(w, e, m) case Stuck => Stuck case Then(c, m1) => Then(c.p, m1))
      else if o == CommaOp then (
        match ValueOf(w, l, m) case Stuck => Stuck case Then(_, m1) => PlaceOf(w, r, m1))
      else Stuck
    case _ => Stuck
  }

  function ListOf<M>(w: World<M>, es: Exprs, m: M): Outcome<seq<Value>, M>
    decreases es
  {
    match es
    case Empty => Then([], m)
    case Item(e, r) =>
      match ValueOf(w, e, m)
      case Stuck => Stuck
      case Then(v, m1) => match ListOf(w, r, m1) case Stuck => Stuck case Then(vs, m2) => Then([v] + vs, m2)
  }

  function Operands(vs: seq<Value>): seq<Operand> {
    if vs == [] then [] else [Computed(vs[0])] + Operands(vs[1..])
  }

  // ----- the emitted symbols have the meaning of the operations -----

  predicate OnNumbers(o: InfixOp) {
    match o
    case PtrAdd => false case PtrSub => false case PtrDiff => false case CmpEq => false case CmpNe => false
    case UCmpLt => false case UCmpGt => false case UCmpLe => false case UCmpGe => false
    case _ => true
  }

  predicate Products(o: InfixOp) {
    match o
    case Mul => true case SDiv => true case UDiv => true case SRem => true case URem => true
    case Shl => true case Shr => true case Sar => true
    case _ => false
  }

  lemma SameProducts(o: InfixOp, a: int, b: int)
    requires Products(o) && ApplyNumbers(o, a, b).Some?
    ensures Operate(InfixSym(o), Num(a), Num(b)) == ApplyNumbers(o, a, b)
  {
    match o
    case Mul =>
    case SDiv =>
    case UDiv =>
    case SRem =>
    case URem =>
    case Shl =>
    case Shr =>
    case Sar =>
  }

  lemma SameNumbers(o: InfixOp, a: int, b: int)
    requires ApplyNumbers(o, a, b).Some?
    ensures Operate(InfixSym(o), Num(a), Num(b)) == ApplyNumbers(o, a, b)
  {
    if Products(o) { SameProducts(o, a, b); }
  }

  lemma SamePointers(o: InfixOp, a: Value, b: Value)
    requires !OnNumbers(o) && Apply(o, a, b).Some?
    ensures Operate(InfixSym(o), a, b) == Apply(o, a, b)
  {
    match o
    case PtrAdd =>
    case PtrSub =>
    case PtrDiff =>
    case CmpEq =>
    case CmpNe =>
    case UCmpLt =>
    case UCmpGt =>
    case UCmpLe =>
    case UCmpGe =>
  }

  /** The symbol printed for an operation computes what the operation computes. */
  lemma SameOperation(o: InfixOp, a: Value, b: Value)
    requires Apply(o, a, b).Some?
    ensures Operate(InfixSym(o), a, b) == Apply(o, a, b)
  {
    if OnNumbers(o) { SameNumbers(o, a.n, b.n); } else { SamePointers(o, a, b); }
  }

  lemma SameUnary(op: PrefixOp, v: Value)
    requires ApplyUnary(op, v).Some?
    ensures OperateUnary(PrefixSym(op), v) == ApplyUnary(op, v)
  {}

  lemma {:induction false} SameStep<M>(w: World<M>, up: bool, p: Place, m: M)
    requires Step(w, up, p, m).Then?
    ensures CStep(w, if up then PlusPlus else MinusMinus, p, m) == Step(w, up, p, m)
  {}

  // ----- expressions -----

  lemma {:induction false} SameValue<M>(w: World<M>, e: Expr, m: M)
    requires ValueOf(w, e, m).Then?
    ensures CValue(w, Erase(e), m) == ValueOf(w, e, m)
    decreases e, 4
  {
    match e
    case Leaf(_) =>
    case Undef(_) =>
    case Aggregate(_, _) => SameAggregate(w, e, m);
    case Intrinsic(_, _) => SameMacro(w, e, m);
    case IntrinsicCast(_, _, _) => SameMacro(w, e, m);
    case Access(_, _, _) => SameAccess(w, e, m);
    case Subscript(_, _) => SameLoaded(w, e, m);
    case Call(_, _) => SameCall(w, e, m);
    case PostStep(_, _) => SamePost(w, e, m);
    case BitCast(_, _) => SameMacro(w, e, m);
    case Implicit(x) => SameValue(w, x, m);
    case Cast(_, _) => SameCast(w, e, m);
    case Prefix(op, x) => SamePrefix(w, op, x, m);
    case Infix(o, l, r) => SameInfix(w, o, InfixSym(o), l, r, m);
    case Ternary(_, _, _) => SameChoice(w, e, m);
  }

  lemma {:induction false} SameAggregate<M>(w: World<M>, e: Expr, m: M)
    requires e.Aggregate? && ValueOf(w, e, m).Then?
    ensures CValue(w, Erase(e), m) == ValueOf(w, e, m)
    decreases e, 1
  {
    SameList(w, e.es, m);
  }

  lemma {:induction false} SameAccess<M>(w: World<M>, e: Expr, m: M)
    requires e.Access? && ValueOf(w, e, m).Then?
    ensures CValue(w, Erase(e), m) == ValueOf(w, e, m)
    decreases e, 3, 1
  {
    if e.arrow { SameLoaded(w, e, m); } else { SameValue(w, e.e, m); }
  }

  lemma {:induction false} SamePost<M>(w: World<M>, e: Expr, m: M)
    requires e.PostStep? && ValueOf(w, e, m).Then?
    ensures CValue(w, Erase(e), m) == ValueOf(w, e, m)
    decreases e, 1
  {
    SameStepped(w, e.inc, e.e, m);
  }

  lemma {:induction false} SameCast<M>(w: World<M>, e: Expr, m: M)
    requires e.Cast? && ValueOf(w, e, m).Then?
    ensures CValue(w, Erase(e), m) == ValueOf(w, e, m)
    decreases e, 1
  {
    SameValue(w, e.e, m);
  }

  lemma RuntimeName(x: string)
    ensures var r := RuntimeMacro(x); |r| >= 3 && r[..3] == "rr_" && r[3..] == x && r != "undef" && r != "bit_cast"
  {
    assert RuntimeMacro(x)[0] == 'r' && "undef"[0] == 'u' && "bit_cast"[0] == 'b';
  }

  lemma {:induction false} SameMacro<M>(w: World<M>, e: Expr, m: M)
    requires (e.Intrinsic? || e.IntrinsicCast? || e.BitCast?) && ValueOf(w, e, m).Then?
    ensures CValue(w, Erase(e), m) == ValueOf(w, e, m)
    decreases e, 1
  {
    match e
    case Intrinsic(x, es) =>
      SameOperands(w, es, m);
      RuntimeName(x);
    case IntrinsicCast(x, t, a) =>
      SameValue(w, a, m);
      CastOperands(w, t, a, m);
      RuntimeName(x);
    case BitCast(_, x) => SameValue(w, x, m);
  }

  lemma {:induction false} SameCall<M>(w: World<M>, e: Expr, m: M)
    requires e.Call? && ValueOf(w, e, m).Then?
    ensures CValue(w, Erase(e), m) == ValueOf(w, e, m)
    decreases e, 1
  {
    SameValue(w, e.fun, m);
    SameList(w, e.es, ValueOf(w, e.fun, m).m);
  }

  lemma {:induction false} SameChoice<M>(w: World<M>, e: Expr, m: M)
    requires e.Ternary? && ValueOf(w, e, m).Then?
    ensures CValue(w, Erase(e), m) == ValueOf(w, e, m)
    decreases e, 1
  {
    SameValue(w, e.c, m);
    var v := ValueOf(w, e.c, m);
    if Holds(v.a) == Some(true) { SameValue(w, e.a, v.m); } else { SameValue(w, e.b, v.m); }
  }

  lemma {:induction false} SamePrefix<M>(w: World<M>, op: PrefixOp, x: Expr, m: M)
    requires PrefixOf(w, op, x, m).Then?
    ensures CPrefix(w, PrefixSym(op), Erase(x), m) == PrefixOf(w, op, x, m)
    decreases x, 6
  {
    match op
    case Increment => SameStepped(w, true, x, m);
    case Decrement => SameStepped(w, false, x, m);
    case Addressof => SamePlace(w, x, m);
    case Indirection => SamePointee(w, x, m);
    case _ =>
      SameValue(w, x, m);
      SameUnary(op, ValueOf(w, x, m).a);
  }

  /** The infix expression of C computes the value of that of the dialect, if it has one. */
  ghost predicate InfixAgrees<M>(w: World<M>, o: InfixOp, s: Sym, l: Expr, r: Expr, x: CExpr, y: CExpr, m: M) {
    ValueOf(w, Infix(o, l, r), m).Then? ==> CValue(w, Bin(s, x, y), m) == ValueOf(w, Infix(o, l, r), m)
  }

  ghost predicate InfixPlaceAgrees<M>(w: World<M>, o: InfixOp, s: Sym, l: Expr, r: Expr, x: CExpr, y: CExpr, m: M) {
    PlaceOf(w, Infix(o, l, r), m).Then? ==> CPlace(w, Bin(s, x, y), m) == PlaceOf(w, Infix(o, l, r), m)
  }

  lemma InfixSymbols(o: InfixOp)
    ensures o == Assign ==> InfixSym(o) == Eq
    ensures o == CommaOp ==> InfixSym(o) == Sym.Comma
    ensures o == LogicalAnd ==> InfixSym(o) == AmpAmp
    ensures o == LogicalOr ==> InfixSym(o) == PipePipe
  {}

  /** `s` is the symbol that is printed for `o`. */
  lemma {:induction false} SameInfix<M>(w: World<M>, o: InfixOp, s: Sym, l: Expr, r: Expr, m: M)
    requires s == InfixSym(o)
    ensures InfixAgrees(w, o, s, l, r, Erase(l), Erase(r), m)
    decreases Infix(o, l, r), 1, 1
  {
    InfixSymbols(o);
    if o == Assign {
      SameAssign(w, l, r, m);
    } else if o == CommaOp {
      SameComma(w, l, r, m);
    } else if o == LogicalAnd {
      SameAnd(w, l, r, m);
    } else if o == LogicalOr {
      SameOr(w, l, r, m);
    } else {
      SameStrict(w, o, s, l, r, m);
    }
  }

  lemma {:induction false} SameComma<M>(w: World<M>, l: Expr, r: Expr, m: M)
    ensures InfixAgrees(w, CommaOp, Sym.Comma, l, r, Erase(l), Erase(r), m)
    decreases Infix(CommaOp, l, r), 0
  {
    var a := ValueOf(w, l, m);
    SequenceOf(w, l, r, m);
    if a.Then? && ValueOf(w, r, a.m).Then? {
      SameValue(w, l, m);
      SameValue(w, r, a.m);
      CommaAgrees(w, l, r, Erase(l), Erase(r), m);
    }
  }

  lemma {:induction false} CommaAgrees<M>(w: World<M>, l: Expr, r: Expr, x: CExpr, y: CExpr, m: M)
    requires var a := ValueOf(w, l, m); a.Then? && CValue(w, x, m) == a && CValue(w, y, a.m) == ValueOf(w, r, a.m)
    ensures InfixAgrees(w, CommaOp, Sym.Comma, l, r, x, y, m)
  {
    SequenceOf(w, l, r, m);
    Sequence(w, x, y, m);
  }

  lemma {:induction false} SequenceOf<M>(w: World<M>, l: Expr, r: Expr, m: M)
    ensures var a := ValueOf(w, l, m);
            ValueOf(w, Infix(CommaOp, l, r), m) == if a.Then? then ValueOf(w, r, a.m) else Stuck
  {
    assert ValueOf(w, Infix(CommaOp, l, r), m) == InfixOf(w, Infix(CommaOp, l, r), m);
  }

  lemma {:induction false} SequencePlaceOf<M>(w: World<M>, l: Expr, r: Expr, m: M)
    ensures var a := ValueOf(w, l, m);
            PlaceOf(w, Infix(CommaOp, l, r), m) == if a.Then? then PlaceOf(w, r, a.m) else Stuck
  {}

  lemma {:induction false} ValueIsBinary<M>(w: World<M>, op: Sym, l: CExpr, r: CExpr, m: M)
    ensures CValue(w, Bin(op, l, r), m) == CBinary(w, Bin(op, l, r), m)
  {}

  lemma {:induction false} BinaryComma<M>(w: World<M>, l: CExpr, r: CExpr, m: M)
    requires CValue(w, l, m).Then?
    ensures CBinary(w, Bin(Sym.Comma, l, r), m) == CValue(w, r, CValue(w, l, m).m)
  {}

  lemma {:induction false} Sequence<M>(w: World<M>, l: CExpr, r: CExpr, m: M)
    requires CValue(w, l, m).Then?
    ensures CValue(w, Bin(Sym.Comma, l, r), m) == CValue(w, r, CValue(w, l, m).m)
  {
    ValueIsBinary(w, Sym.Comma, l, r, m);
    BinaryComma(w, l, r, m);
  }

  lemma {:induction false} SequencePlace<M>(w: World<M>, l: CExpr, r: CExpr, m: M)
    requires CValue(w, l, m).Then?
    ensures CPlace(w, Bin(Sym.Comma, l, r), m) == CPlace(w, r, CValue(w, l, m).m)
  {}

  predicate EvaluatesBoth(o: InfixOp) { o != Assign && o != CommaOp && o != LogicalAnd && o != LogicalOr }

  lemma StrictSymbol(o: InfixOp)
    requires EvaluatesBoth(o)
    ensures var s := InfixSym(o); s != Eq && s != Sym.Comma && s != AmpAmp && s != PipePipe
  {}

  lemma {:induction false} SameStrict<M>(w: World<M>, o: InfixOp, s: Sym, l: Expr, r: Expr, m: M)
    requires EvaluatesBoth(o) && s == InfixSym(o)
    ensures InfixAgrees(w, o, s, l, r, Erase(l), Erase(r), m)
    decreases Infix(o, l, r), 0
  {
    if ValueOf(w, Infix(o, l, r), m).Then? {
      var a := ValueOf(w, l, m);
      Both(w, o, l, r, m);
      SameValue(w, l, m);
      SameValue(w, r, a.m);
      StrictSymbol(o);
      SameOperation(o, a.a, ValueOf(w, r, a.m).a);
      Strict(w, s, Erase(l), Erase(r), m);
    }
  }

  lemma {:induction false} Both<M>(w: World<M>, o: InfixOp, l: Expr, r: Expr, m: M)
    requires EvaluatesBoth(o) && ValueOf(w, Infix(o, l, r), m).Then?
    ensures ValueOf(w, l, m).Then? && ValueOf(w, r, ValueOf(w, l, m).m).Then?
    ensures var a := ValueOf(w, l, m);
            var b := ValueOf(w, r, a.m);
            Apply(o, a.a, b.a).Some? && ValueOf(w, Infix(o, l, r), m) == Then(Apply(o, a.a, b.a).value, b.m)
  {}

  /** An operator that evaluates both operands. */
  lemma {:induction false} Strict<M>(w: World<M>, s: Sym, l: CExpr, r: CExpr, m: M)
    requires s != Eq && s != Sym.Comma && s != AmpAmp && s != PipePipe
    requires CValue(w, l, m).Then? && CValue(w, r, CValue(w, l, m).m).Then?
    ensures var a := CValue(w, l, m);
            var b := CValue(w, r, a.m);
            CValue(w, Bin(s, l, r), m) == Lift(Operate(s, a.a, b.a), b.m)
  {
    ValueIsBinary(w, s, l, r, m);
  }

  /** An operator that may skip its second operand. */
  lemma {:induction false} Lazy<M>(w: World<M>, s: Sym, l: CExpr, r: CExpr, m: M)
    requires (s == AmpAmp || s == PipePipe) && CValue(w, l, m).Then? && Holds(CValue(w, l, m).a).Some?
    ensures var a := CValue(w, l, m);
            var decided := s == PipePipe;
            CValue(w, Bin(s, l, r), m)
              == if Holds(a.a).value == decided then Then(Truth(decided), a.m) else CTested(w, r, a.m)
  {
    ValueIsBinary(w, s, l, r, m);
  }

  lemma {:induction false} LazyOf<M>(w: World<M>, o: InfixOp, l: Expr, r: Expr, m: M)
    requires o == LogicalAnd || o == LogicalOr
    ensures var a := ValueOf(w, l, m);
            var decided := o == LogicalOr;
            ValueOf(w, Infix(o, l, r), m)
              == if a.Stuck? || Holds(a.a).None? then Stuck
                 else if Holds(a.a).value == decided then Then(Truth(decided), a.m) else ConditionOf(w, r, a.m)
  {
    assert ValueOf(w, Infix(o, l, r), m) == InfixOf(w, Infix(o, l, r), m);
  }

  lemma {:induction false} SameCondition<M>(w: World<M>, x: Expr, m: M)
    requires ConditionOf(w, x, m).Then?
    ensures CTested(w, Erase(x), m) == ConditionOf(w, x, m)
    decreases x, 5
  {
    SameValue(w, x, m);
  }

  lemma {:induction false} LazyAgrees<M>(w: World<M>, o: InfixOp, s: Sym, l: Expr, r: Expr, x: CExpr, y: CExpr, m: M)
    requires (o == LogicalAnd && s == AmpAmp) || (o == LogicalOr && s == PipePipe)
    requires var a := ValueOf(w, l, m);
             && a.Then? && Holds(a.a).Some? && CValue(w, x, m) == a
             && (ConditionOf(w, r, a.m).Then? ==> CTested(w, y, a.m) == ConditionOf(w, r, a.m))
    ensures InfixAgrees(w, o, s, l, r, x, y, m)
  {
    LazyOf(w, o, l, r, m);
    Lazy(w, s, x, y, m);
  }

  lemma {:induction false} SameAnd<M>(w: World<M>, l: Expr, r: Expr, m: M)
    ensures InfixAgrees(w, LogicalAnd, AmpAmp, l, r, Erase(l), Erase(r), m)
    decreases Infix(LogicalAnd, l, r), 0
  {
    LazyOf(w, LogicalAnd, l, r, m);
    var a := ValueOf(w, l, m);
    if a.Then? && Holds(a.a).Some? {
      SameValue(w, l, m);
      if ConditionOf(w, r, a.m).Then? { SameCondition(w, r, a.m); }
      LazyAgrees(w, LogicalAnd, AmpAmp, l, r, Erase(l), Erase(r), m);
    }
  }

  lemma {:induction false} SameOr<M>(w: World<M>, l: Expr, r: Expr, m: M)
    ensures InfixAgrees(w, LogicalOr, PipePipe, l, r, Erase(l), Erase(r), m)
    decreases Infix(LogicalOr, l, r), 0
  {
    LazyOf(w, LogicalOr, l, r, m);
    var a := ValueOf(w, l, m);
    if a.Then? && Holds(a.a).Some? {
      SameValue(w, l, m);
      if ConditionOf(w, r, a.m).Then? { SameCondition(w, r, a.m); }
      LazyAgrees(w, LogicalOr, PipePipe, l, r, Erase(l), Erase(r), m);
    }
  }

  lemma {:induction false} SameAssigned<M>(w: World<M>, l: Expr, r: Expr, m: M)
    requires AssignedBy(w, Infix(Assign, l, r), m).Then?
    ensures CAssigned(w, Bin(Eq, Erase(l), Erase(r)), m) == AssignedBy(w, Infix(Assign, l, r), m)
    decreases Infix(Assign, l, r), 0
  {
    SamePlace(w, l, m);
    SameValue(w, r, PlaceOf(w, l, m).m);
  }

  lemma {:induction false} Assignment<M>(w: World<M>, l: CExpr, r: CExpr, m: M)
    requires CAssigned(w, Bin(Eq, l, r), m).Then?
    ensures var c := CAssigned(w, Bin(Eq, l, r), m);
            CValue(w, Bin(Eq, l, r), m) == Then(c.a.v, c.m) && CPlace(w, Bin(Eq, l, r), m) == Then(c.a.p, c.m)
  {
    ValueIsBinary(w, Eq, l, r, m);
  }

  lemma {:induction false} SameAssign<M>(w: World<M>, l: Expr, r: Expr, m: M)
    ensures InfixAgrees(w, Assign, Eq, l, r, Erase(l), Erase(r), m)
    ensures InfixPlaceAgrees(w, Assign, Eq, l, r, Erase(l), Erase(r), m)
    decreases Infix(Assign, l, r), 1, 0
  {
    AssignmentOf(w, l, r, m);
    if AssignedBy(w, Infix(Assign, l, r), m).Then? {
      SameAssigned(w, l, r, m);
      AssignAgrees(w, l, r, Erase(l), Erase(r), m);
    }
  }

  lemma {:induction false} AssignAgrees<M>(w: World<M>, l: Expr, r: Expr, x: CExpr, y: CExpr, m: M)
    requires var c := AssignedBy(w, Infix(Assign, l, r), m); c.Then? && CAssigned(w, Bin(Eq, x, y), m) == c
    ensures InfixAgrees(w, Assign, Eq, l, r, x, y, m) && InfixPlaceAgrees(w, Assign, Eq, l, r, x, y, m)
  {
    AssignmentOf(w, l, r, m);
    Assignment(w, x, y, m);
  }

  lemma {:induction false} AssignmentOf<M>(w: World<M>, l: Expr, r: Expr, m: M)
    ensures var e := Infix(Assign, l, r);
            var c := AssignedBy(w, e, m);
            if c.Then? then ValueOf(w, e, m) == Then(c.a.v, c.m) && PlaceOf(w, e, m) == Then(c.a.p, c.m)
            else ValueOf(w, e, m).Stuck? && PlaceOf(w, e, m).Stuck?
  {
    assert ValueOf(w, Infix(Assign, l, r), m) == InfixOf(w, Infix(Assign, l, r), m);
  }

  lemma {:induction false} SameStepped<M>(w: World<M>, up: bool, x: Expr, m: M)
    requires Stepped(w, up, x, m).Then?
    ensures CStepped(w, if up then PlusPlus else MinusMinus, Erase(x), m) == Stepped(w, up, x, m)
    decreases x, 5
  {
    SamePlace(w, x, m);
    SameStep(w, up, PlaceOf(w, x, m).a, PlaceOf(w, x, m).m);
  }

  lemma {:induction false} SamePointee<M>(w: World<M>, x: Expr, m: M)
    requires Pointee(w, x, m).Then?
    ensures CPointee(w, Erase(x), m) == Pointee(w, x, m)
    decreases x, 5
  {
    SameValue(w, x, m);
  }

  lemma {:induction false} SameLoaded<M>(w: World<M>, e: Expr, m: M)
    requires Loaded(w, e, m).Then?
    ensures CLoaded(w, Erase(e), m) == Loaded(w, e, m)
    decreases e, 3, 0
  {
    SamePlace(w, e, m);
  }

  lemma {:induction false} SamePlace<M>(w: World<M>, e: Expr, m: M)
    requires PlaceOf(w, e, m).Then?
    ensures CPlace(w, Erase(e), m) == PlaceOf(w, e, m)
    decreases e, 2
  {
    match e
    case Leaf(_) =>
    case Access(x, arrow, _) => if arrow { SamePointee(w, x, m); } else { SamePlace(w, x, m); }
    case Subscript(_, _) => SameElement(w, e, m);
    case PostStep(inc, x) => SameStepped(w, inc, x, m);
    case Prefix(_, _) => SamePrefixPlace(w, e, m);
    case Infix(o, l, r) => SameInfixPlace(w, o, InfixSym(o), l, r, m);
  }

  lemma {:induction false} SamePrefixPlace<M>(w: World<M>, e: Expr, m: M)
    requires e.Prefix? && PlaceOf(w, e, m).Then?
    ensures CPlace(w, Erase(e), m) == PlaceOf(w, e, m)
    decreases e, 1
  {
    PrefixPlace(w, PrefixSym(e.op), Erase(e.e), m);
    if e.op == Indirection { SamePointee(w, e.e, m); } else { SameStepped(w, e.op == Increment, e.e, m); }
  }

  lemma {:induction false} PrefixPlace<M>(w: World<M>, op: Sym, x: CExpr, m: M)
    ensures op == Star ==> CPlace(w, Pre(op, x), m) == CPointee(w, x, m)
    ensures op != Star && CStepped(w, op, x, m).Then? ==>
              CPlace(w, Pre(op, x), m) == Then(CStepped(w, op, x, m).a.p, CStepped(w, op, x, m).m)
  {}

  lemma {:induction false} SameInfixPlace<M>(w: World<M>, o: InfixOp, s: Sym, l: Expr, r: Expr, m: M)
    requires s == InfixSym(o)
    ensures InfixPlaceAgrees(w, o, s, l, r, Erase(l), Erase(r), m)
    decreases Infix(o, l, r), 1, 1
  {
    InfixSymbols(o);
    if o == Assign {
      SameAssign(w, l, r, m);
    } else if o == CommaOp {
      SameCommaPlace(w, l, r, m);
    } else {
      NoPlace(w, o, s, l, r, Erase(l), Erase(r), m);
    }
  }

  lemma {:induction false} NoPlace<M>(w: World<M>, o: InfixOp, s: Sym, l: Expr, r: Expr, x: CExpr, y: CExpr, m: M)
    requires o != Assign && o != CommaOp
    ensures InfixPlaceAgrees(w, o, s, l, r, x, y, m)
  {}

  lemma {:induction false} SameCommaPlace<M>(w: World<M>, l: Expr, r: Expr, m: M)
    ensures InfixPlaceAgrees(w, CommaOp, Sym.Comma, l, r, Erase(l), Erase(r), m)
    decreases Infix(CommaOp, l, r), 0
  {
    var a := ValueOf(w, l, m);
    SequencePlaceOf(w, l, r, m);
    if a.Then? && PlaceOf(w, r, a.m).Then? {
      SameValue(w, l, m);
      SamePlace(w, r, a.m);
      CommaPlaceAgrees(w, l, r, Erase(l), Erase(r), m);
    }
  }

  lemma {:induction false} CommaPlaceAgrees<M>(w: World<M>, l: Expr, r: Expr, x: CExpr, y: CExpr, m: M)
    requires var a := ValueOf(w, l, m); a.Then? && CValue(w, x, m) == a && CPlace(w, y, a.m) == PlaceOf(w, r, a.m)
    ensures InfixPlaceAgrees(w, CommaOp, Sym.Comma, l, r, x, y, m)
  {
    SequencePlaceOf(w, l, r, m);
    SequencePlace(w, x, y, m);
  }

  lemma {:induction false} SameElement<M>(w: World<M>, e: Expr, m: M)
    requires e.Subscript? && PlaceOf(w, e, m).Then?
    ensures CPlace(w, Erase(e), m) == PlaceOf(w, e, m)
    decreases e, 1
  {
    SameValue(w, e.e, m);
    SameValue(w, e.i, ValueOf(w, e.e, m).m);
  }

  lemma {:induction false} SameList<M>(w: World<M>, es: Exprs, m: M)
    requires ListOf(w, es, m).Then?
    ensures CList(w, EraseAll(es), m) == ListOf(w, es, m)
    decreases es
  {
    if es.Item? {
      SameValue(w, es.e, m);
      SameList(w, es.rest, ValueOf(w, es.e, m).m);
    }
  }

  lemma {:induction false} NoType(e: Expr)
    ensures !Erase(e).TypeArg?
  {
    if e.Implicit? { NoType(e.e); }
  }

  lemma {:induction false} SameOperands<M>(w: World<M>, es: Exprs, m: M)
    requires ListOf(w, es, m).Then?
    ensures COperands(w, EraseAll(es), m) == Then(Operands(ListOf(w, es, m).a), ListOf(w, es, m).m)
    decreases es
  {
    if es.Item? {
      SameValue(w, es.e, m);
      NoType(es.e);
      var v := ValueOf(w, es.e, m);
      SameOperands(w, es.rest, v.m);
      var vs := ListOf(w, es.rest, v.m).a;
      assert ([v.a] + vs)[1..] == vs;
    }
  }

  lemma {:induction false} CastOperands<M>(w: World<M>, t: string, x: Expr, m: M)
    requires ValueOf(w, x, m).Then? && CValue(w, Erase(x), m) == ValueOf(w, x, m)
    ensures COperands(w, Args(TypeArg(t), Args(Erase(x), NoArgs)), m)
            == Then([Type(t), Computed(ValueOf(w, x, m).a)], ValueOf(w, x, m).m)
  {
    NoType(x);
    var v := ValueOf(w, x, m);
    assert COperands(w, NoArgs, v.m) == Then([], v.m);
    assert [Computed(v.a)] + [] == [Computed(v.a)];
    assert COperands(w, Args(Erase(x), NoArgs), m) == Then([Computed(v.a)], v.m);
    assert [Type(t)] + [Computed(v.a)] == [Type(t), Computed(v.a)];
  }

  // ----- the theorem -----

  /** In every world and memory: what the expression computes is what a reader of the printed text computes. */
  lemma {:induction false} ReadsTheSame<M>(w: World<M>, e: Expr, m: M)
    requires Printable(e)
    ensures Reading(e).Some?
    ensures ValueOf(w, e, m).Then? ==> CValue(w, Reading(e).value, m) == ValueOf(w, e, m)
    ensures PlaceOf(w, e, m).Then? ==> CPlace(w, Reading(e).value, m) == PlaceOf(w, e, m)
  {
    RoundTrip(e);
    if ValueOf(w, e, m).Then? { SameValue(w, e, m); }
    if PlaceOf(w, e, m).Then? { SamePlace(w, e, m); }
  }
}
