/** What C text computes, by the operators of C (section 6.5 of ISO/IEC 9899:2011) on the tree that is read from
    the text.

    Numbers are unbounded integers and operands are evaluated from left to right.  What depends on types and on
    the rest of the program (conversions, layouts, calls, intrinsics, memory) is given by a `World`. */
module CMeaning {
  import opened Wrappers
  import opened CTokens
  import opened CParser

  // ----- values -----

  /** Where a value is stored: a variable, a field, or some elements behind another place. */
  datatype Place = Variable(w: string) | Field(p: Place, f: string) | Behind(p: Place, n: int)

  datatype Value = Num(n: int) | Ptr(p: Place) | Object(t: string, vs: seq<Value>)

  datatype Denotation = Constant(v: Value) | Stored(p: Place)

  /** The operands of an intrinsic operation. */
  datatype Operand = Type(t: string) | Computed(v: Value)

  datatype Outcome<A, M> = Stuck | Then(a: A, m: M)

  datatype World<!M> = World(
    words: string -> Denotation,
    load: (M, Place) -> Option<Value>,
    store: (M, Place, Value) -> Option<M>,
    select: (Value, string) -> Option<Value>,
    convert: (string, Value) -> Option<Value>,
    reinterpret: (string, Value) -> Option<Value>,
    undefined: string -> Value,
    intrinsic: (string, seq<Operand>) -> Option<Value>,
    call: (Value, seq<Value>, M) -> Outcome<Value, M>)

  /** The place `n` elements further. */
  function Move(p: Place, n: int): Place {
    if p.Behind? then if p.n + n == 0 then p.p else Behind(p.p, p.n + n)
    else if n == 0 then p else Behind(p, n)
  }

  function Base(p: Place): Place { if p.Behind? then p.p else p }

  function Offset(p: Place): int { if p.Behind? then p.n else 0 }

  function Truth(b: bool): Value { Num(if b then 1 else 0) }

  /** Whether a condition holds. */
  function Holds(v: Value): Option<bool> {
    match v case Num(n) => Some(n != 0) case Ptr(_) => Some(true) case Object(_, _) => None
  }

  // ----- integers -----

  /** Division that truncates towards zero. */
  function Quotient(a: int, b: int): int
    requires b != 0
  {
    if a >= 0 then a / b else -(-a / b)
  }

  function Remainder(a: int, b: int): int
    requires b != 0
  {
    a - b * Quotient(a, b)
  }

  function Power(n: nat): nat { if n == 0 then 1 else 2 * Power(n - 1) }

  lemma PowerPositive(n: nat)
    ensures Power(n) > 0
  {}

  function ShiftedRight(a: int, n: nat): int {
    PowerPositive(n);
    a / Power(n)
  }

  /** Conjunction of the infinite two's complement representations. */
  function Conjoin(a: int, b: int): int
    decreases if a < 0 then -a else a
  {
    if a == 0 then 0
    else if a == -1 then b
    else 2 * Conjoin(a / 2, b / 2) + (if a % 2 == 1 && b % 2 == 1 then 1 else 0)
  }

  function Complement(a: int): int { -a - 1 }

  function Disjoin(a: int, b: int): int { Complement(Conjoin(Complement(a), Complement(b))) }

  function Differing(a: int, b: int): int { Disjoin(a, b) - Conjoin(a, b) }

  // ----- the operators of C -----

  /** Binary operators that evaluate both operands. */
  function Operate(op: Sym, a: Value, b: Value): Option<Value> {
    match op
    case Plus =>
      if a.Num? && b.Num? then Some(Num(a.n + b.n))
      else if a.Ptr? && b.Num? then Some(Ptr(Move(a.p, b.n)))
      else if a.Num? && b.Ptr? then Some(Ptr(Move(b.p, a.n)))
      else None
    case Minus =>
      if a.Num? && b.Num? then Some(Num(a.n - b.n))
      else if a.Ptr? && b.Num? then Some(Ptr(Move(a.p, -b.n)))
      else if a.Ptr? && b.Ptr? && Base(a.p) == Base(b.p) then Some(Num(Offset(a.p) - Offset(b.p)))
      else None
    case Star => if a.Num? && b.Num? then Some(Num(a.n * b.n)) else None
    case Slash => if a.Num? && b.Num? && b.n != 0 then Some(Num(Quotient(a.n, b.n))) else None
    case Percent => if a.Num? && b.Num? && b.n != 0 then Some(Num(Remainder(a.n, b.n))) else None
    case LessLess => if a.Num? && b.Num? && b.n >= 0 then Some(Num(a.n * Power(b.n))) else None
    case GreaterGreater => if a.Num? && b.Num? && b.n >= 0 then Some(Num(ShiftedRight(a.n, b.n))) else None
    case Amp => if a.Num? && b.Num? then Some(Num(Conjoin(a.n, b.n))) else None
    case Pipe => if a.Num? && b.Num? then Some(Num(Disjoin(a.n, b.n))) else None
    case Caret => if a.Num? && b.Num? then Some(Num(Differing(a.n, b.n))) else None
    case Less => if Comparable(a, b) then Some(Truth(Rank(a) < Rank(b))) else None
    case Greater => if Comparable(a, b) then Some(Truth(Rank(a) > Rank(b))) else None
    case LessEq => if Comparable(a, b) then Some(Truth(Rank(a) <= Rank(b))) else None
    case GreaterEq => if Comparable(a, b) then Some(Truth(Rank(a) >= Rank(b))) else None
    case EqEq => if a.Object? || b.Object? then None else Some(Truth(a == b))
    case NotEq => if a.Object? || b.Object? then None else Some(Truth(a != b))
    case _ => None
  }

  /** Numbers, or pointers into the same array. */
  predicate Comparable(a: Value, b: Value) {
    (a.Num? && b.Num?) || (a.Ptr? && b.Ptr? && Base(a.p) == Base(b.p))
  }

  function Rank(v: Value): int
    requires !v.Object?
  {
    if v.Num? then v.n else Offset(v.p)
  }

  /** Unary operators on values. */
  function OperateUnary(op: Sym, v: Value): Option<Value> {
    match op
    case Minus => if v.Num? then Some(Num(-v.n)) else None
    case Plus => if v.Num? then Some(v) else None
    case Tilde => if v.Num? then Some(Num(Complement(v.n))) else None
    case Exclaim => if Holds(v).Some? then Some(Truth(!Holds(v).value)) else None
    case _ => None
  }

  /** What a step does to a place, and what an assignment does. */
  datatype Change = Change(p: Place, before: Value, after: Value)

  datatype Assigned = Assigned(p: Place, v: Value)

  /** `++` adds 1 to what is stored, `--` subtracts 1. */
  function CStep<M>(w: World<M>, op: Sym, p: Place, m: M): Outcome<Change, M> {
    if op != PlusPlus && op != MinusMinus then Stuck
    else
      match w.load(m, p)
      case None => Stuck
      case Some(v) =>
        match Operate(if op == PlusPlus then Plus else Minus, v, Num(1))
        case None => Stuck
        case Some(n) => match w.store(m, p, n) case None => Stuck case Some(m') => Then(Change(p, v, n), m')
  }

  function Lift<M>(v: Option<Value>, m: M): Outcome<Value, M> {
    match v case None => Stuck case Some(x) => Then(x, m)
  }

  // ----- what C text computes -----

  function CValue<M>(w: World<M>, e: CExpr, m: M): Outcome<Value, M>
    decreases e, 4
  {
    match e
    case Name(x) => (match w.words(x) case Constant(v) => Then(v, m) case Stored(p) => Lift(w.load(m, p), m))
    case MacroUse(x, args) => CMacro(w, x, args, m)
    case TypeArg(_) => Stuck
    case Compound(t, inits) => (
      match CList(w, inits, m) case Stuck => Stuck case Then(vs, m1) => Then(Object(t, vs), m1))
    case Member(x, arrow, f) =>
      if arrow then CLoaded(w, e, m)
      else (match CValue(w, x, m) case Stuck => Stuck case Then(v, m1) => Lift(w.select(v, f), m1))
    case Index(_, _) => CLoaded(w, e, m)
    case CallOf(f, args) => (
      match CValue(w, f, m)
      case Stuck => Stuck
      case Then(v, m1) => match CList(w, args, m1) case Stuck => Stuck case Then(vs, m2) => w.call(v, vs, m2))
    case Post(op, x) => (match CStepped(w, op, x, m) case Stuck => Stuck case Then(c, m1) => Then(c.before, m1))
    case Pre(op, x) => CPrefix(w, op, x, m)
    case CastTo(t, x) => (match CValue(w, x, m) case Stuck => Stuck case Then(v, m1) => Lift(w.convert(t, v), m1))
    case Bin(_, _, _) => CBinary(w, e, m)
    case Choice(c, a, b) => (
      match CValue(w, c, m)
      case Stuck => Stuck
      case Then(v, m1) =>
        if Holds(v).None? then Stuck else if Holds(v).value then CValue(w, a, m1) else CValue(w, b, m1))
  }

  function CPrefix<M>(w: World<M>, op: Sym, x: CExpr, m: M): Outcome<Value, M>
    decreases x, 6
  {
    if op == PlusPlus || op == MinusMinus then
      match CStepped(w, op, x, m) case Stuck => Stuck case Then(c, m1) => Then(c.after, m1)
    else if op == Amp then
      match CPlace(w, x, m) case Stuck => Stuck case Then(p, m1) => Then(Ptr(p), m1)
    else if op == Star then
      match CPointee(w, x, m) case Stuck => Stuck case Then(p, m1) => Lift(w.load(m1, p), m1)
    else
      match CValue(w, x, m) case Stuck => Stuck case Then(v, m1) => Lift(OperateUnary(op, v), m1)
  }

  function CBinary<M>(w: World<M>, e: CExpr, m: M): Outcome<Value, M>
    requires e.Bin?
    decreases e, 1
  {
    if e.op == Eq then
      match CAssigned(w, e, m) case Stuck => Stuck case Then(c, m1) => Then(c.v, m1)
    else
      match CValue(w, e.l, m)
      case Stuck => Stuck
      case Then(a, m1) =>
        if e.op == Sym.Comma then CValue(w, e.r, m1)
        else if e.op == AmpAmp then
          if Holds(a).None? then Stuck else if Holds(a).value then CTested(w, e.r, m1) else Then(Num(0), m1)
        else if e.op == PipePipe then
          if Holds(a).None? then Stuck else if Holds(a).value then Then(Num(1), m1) else CTested(w, e.r, m1)
        else match CValue(w, e.r, m1) case Stuck => Stuck case Then(b, m2) => Lift(Operate(e.op, a, b), m2)
  }

  /** An operand tested as a condition gives 1 or 0. */
  function CTested<M>(w: World<M>, x: CExpr, m: M): Outcome<Value, M>
    decreases x, 5
  {
    match CValue(w, x, m)
    case Stuck => Stuck
    case Then(v, m1) => if Holds(v).None? then Stuck else Then(Truth(Holds(v).value), m1)
  }

  function CAssigned<M>(w: World<M>, e: CExpr, m: M): Outcome<Assigned, M>
    requires e.Bin?
    decreases e, 0
  {
    match CPlace(w, e.l, m)
    case Stuck => Stuck
    case Then(p, m1) =>
      match CValue(w, e.r, m1)
      case Stuck => Stuck
      case Then(v, m2) => match w.store(m2, p, v) case None => Stuck case Some(m3) => Then(Assigned(p, v), m3)
  }

  function CStepped<M>(w: World<M>, op: Sym, x: CExpr, m: M): Outcome<Change, M>
    decreases x, 5
  {
    match CPlace(w, x, m) case Stuck => Stuck case Then(p, m1) => CStep(w, op, p, m1)
  }

  /** What a pointer points to. */
  function CPointee<M>(w: World<M>, x: CExpr, m: M): Outcome<Place, M>
    decreases x, 5
  {
    match CValue(w, x, m) case Stuck => Stuck case Then(v, m1) => if v.Ptr? then Then(v.p, m1) else Stuck
  }

  function CLoaded<M>(w: World<M>, e: CExpr, m: M): Outcome<Value, M>
    decreases e, 3
  {
    match CPlace(w, e, m) case Stuck => Stuck case Then(p, m1) => Lift(w.load(m1, p), m1)
  }

  /** The place that an lvalue stands for; an assignment or a step stands for what it changes. */
  function CPlace<M>(w: World<M>, e: CExpr, m: M): Outcome<Place, M>
    decreases e, 2
  {
    match e
    case Name(x) => (match w.words(x) case Constant(_) => Stuck case Stored(p) => Then(p, m))
    case Member(x, arrow, f) => (
      match (if arrow then CPointee(w, x, m) else CPlace(w, x, m))
      case Stuck => Stuck
      case Then(p, m1) => Then(Field(p, f), m1))
    case Index(x, i) => (
      match CValue(w, x, m)
      case Stuck => Stuck
      case Then(a, m1) =>
        match CValue(w, i, m1)
        case Stuck => Stuck
        case Then(b, m2) =>
          match Operate(Plus, a, b) case None => Stuck case Some(s) => if s.Ptr? then Then(s.p, m2) else Stuck)
    case Post(op, x) => (match CStepped(w, op, x, m) case Stuck => Stuck case Then(c, m1) => Then(c.p, m1))
    case Pre(op, x) =>
      if op == Star then CPointee(w, x, m)
      else (match CStepped(w, op, x, m) case Stuck => Stuck case Then(c, m1) => Then(c.p, m1))
    case Bin(op, l, r) =>
      if op == Eq then (match CAssigned(w, e, m) case Stuck => Stuck case Then(c, m1) => Then(c.p, m1))
      else if op == Sym.Comma then (
        match CValue(w, l, m) case Stuck => Stuck case Then(_, m1) => CPlace(w, r, m1))
      else Stuck
    case _ => Stuck
  }

  function CList<M>(w: World<M>, es: CArgs, m: M): Outcome<seq<Value>, M>
    decreases es
  {
    match es
    case NoArgs => Then([], m)
    case Args(e, r) =>
      match CValue(w, e, m)
      case Stuck => Stuck
      case Then(v, m1) => match CList(w, r, m1) case Stuck => Stuck case Then(vs, m2) => Then([v] + vs, m2)
  }

  /** The macros of the runtime header. */
  function CMacro<M>(w: World<M>, x: string, args: CArgs, m: M): Outcome<Value, M>
    decreases args, 1
  {
    if x == "undef" then
      if args.Args? && args.e.TypeArg? && args.rest.NoArgs? then Then(w.undefined(args.e.t), m) else Stuck
    else if x == "bit_cast" then
      if args.Args? && args.e.TypeArg? && args.rest.Args? && args.rest.rest.NoArgs? then
        match CValue(w, args.rest.e, m) case Stuck => Stuck case Then(v, m1) => Lift(w.reinterpret(args.e.t, v), m1)
      else Stuck
    else if |x| >= 3 && x[..3] == "rr_" then
      match COperands(w, args, m) case Stuck => Stuck case Then(os, m1) => Lift(w.intrinsic(x[3..], os), m1)
    else Stuck
  }

  function COperands<M>(w: World<M>, es: CArgs, m: M): Outcome<seq<Operand>, M>
    decreases es, 0
  {
    match es
    case NoArgs => Then([], m)
    case Args(e, r) =>
      if e.TypeArg? then
        match COperands(w, r, m) case Stuck => Stuck case Then(os, m2) => Then([Type(e.t)] + os, m2)
      else
        match CValue(w, e, m)
        case Stuck => Stuck
        case Then(v, m1) =>
          match COperands(w, r, m1) case Stuck => Stuck case Then(os, m2) => Then([Computed(v)] + os, m2)
  }
}
