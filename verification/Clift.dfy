/** Statement trees of the Clift dialect and what it means to run them.

    A statement region holds one block, a list of statements.  Every operation with statement
    regions (block statement, if, switch, while, do-while) is a `Nest`; its tag says which.

    A run keeps the *flat continuation*: the list of statements still to be executed, with every
    enclosing block already appended.  Leaving a branch is then invisible, and the target of a jump
    is the flat continuation at the label.  What is observed is the trace of visible actions and
    condition outcomes. */
module Clift {
  import opened Wrappers

  /** Boolean conditions; an atom is an expression whose evaluation is visible. */
  datatype Cond = True | Atom(x: nat) | Not(c: Cond) | And(l: Cond, r: Cond)

  datatype Test = If(c: Cond) | Switch(x: nat)

  datatype JumpKind = Goto | BreakTo | ContinueTo

  datatype Tag =
    | Scope
    | Branch(id: nat, test: Test)
    | While(id: nat, c: Cond, brk: Option<nat>, cont: Option<nat>)
    | DoWhile(id: nat, c: Cond, brk: Option<nat>, cont: Option<nat>)

  /** `Halt` is a return or an expression statement that never returns.  `Again` occurs in runs only:
      it stands at the end of a do-while body and evaluates the condition of that loop. */
  datatype Stmt =
    | Act(a: nat)
    | Halt(a: nat)
    | Label(l: nat)
    | Jump(id: nat, kind: JumpKind, l: nat)
    | Nest(tag: Tag, rs: Regions)
    | Again(loop: Stmt)

  datatype Block = Nil | Cons(hd: Stmt, tl: Block)

  /** The statement regions of one operation: then and else of an if, default and cases of a switch,
      the body of a loop. */
  datatype Regions = One(b: Block) | More(b: Block, rest: Regions)

  // ----- lists -----

  function App(x: Block, y: Block): Block {
    match x case Nil => y case Cons(a, s) => Cons(a, App(s, y))
  }

  lemma {:induction x} AppAssoc(x: Block, y: Block, z: Block)
    ensures App(App(x, y), z) == App(x, App(y, z))
  {}

  lemma {:induction x} AppNil(x: Block)
    ensures App(x, Nil) == x
  {}

  function Len(x: Block): nat {
    match x case Nil => 0 case Cons(_, s) => 1 + Len(s)
  }

  function Take(n: nat, x: Block): Block {
    if n == 0 || x.Nil? then Nil else Cons(x.hd, Take(n - 1, x.tl))
  }

  function Drop(n: nat, x: Block): Block {
    if n == 0 || x.Nil? then x else Drop(n - 1, x.tl)
  }

  lemma {:induction n, x} TakeDrop(n: nat, x: Block)
    ensures App(Take(n, x), Drop(n, x)) == x
  {}

  lemma {:induction n, x} TakeDropApp(n: nat, x: Block, y: Block)
    requires n <= Len(x)
    ensures Take(n, App(x, y)) == Take(n, x) && Drop(n, App(x, y)) == App(Drop(n, x), y)
  {}

  function Count(rs: Regions): nat {
    match rs case One(_) => 1 case More(_, r) => 1 + Count(r)
  }

  function Nth(rs: Regions, i: nat): Block
    requires i < Count(rs)
  {
    if i == 0 then rs.b else Nth(rs.rest, i - 1)
  }

  /** The region selected by the value `i`; an unlisted value of a switch selects the default region.  An if
      always has both of its regions, one of which may be empty. */
  function Pick(rs: Regions, i: nat): Block {
    if i < Count(rs) then Nth(rs, i) else Nth(rs, 0)
  }

  // ----- fallthrough -----

  /** Control never runs past the end of the statement. */
  predicate NoFall(a: Stmt) {
    match a
    case Halt(_) => true
    case Jump(_, _, _) => true
    case Nest(Scope, rs) => NoFallAll(rs)
    case Nest(Branch(_, _), rs) => NoFallAll(rs)
    case _ => false
  }

  /** The last statement of the block decides. */
  predicate NoFallEnd(b: Block) {
    match b
    case Nil => false
    case Cons(a, Nil) => NoFall(a)
    case Cons(_, s) => NoFallEnd(s)
  }

  predicate NoFallAll(rs: Regions) {
    match rs
    case One(b) => NoFallEnd(b)
    case More(b, r) => NoFallEnd(b) && NoFallAll(r)
  }

  // ----- labels -----

  /** What follows the end of a region of `a`, when `k` follows `a` itself. */
  function Inner(a: Stmt, k: Block): Block
    requires a.Nest?
  {
    match a.tag
    case While(_, _, _, _) => Cons(a, k)
    case DoWhile(_, _, _, _) => Cons(Again(a), k)
    case _ => k
  }

  function BreakLabel(tag: Tag): Option<nat> {
    if tag.While? || tag.DoWhile? then tag.brk else None
  }

  function ContinueLabel(tag: Tag): Option<nat> {
    if tag.While? || tag.DoWhile? then tag.cont else None
  }

  /** The flat continuation at label `l`, looked up in `b` followed by `k`. */
  function Find(l: nat, b: Block, k: Block): Option<Block> {
    match b
    case Nil => None
    case Cons(a, s) =>
      if a == Label(l) then Some(App(b, k))
      else if a.Nest? then
        var k1 := App(s, k);
        if BreakLabel(a.tag) == Some(l) then Some(k1)
        else if ContinueLabel(a.tag) == Some(l) then Some(Inner(a, k1))
        else
          var f := FindIn(l, a.rs, Inner(a, k1));
          if f.Some? then f else Find(l, s, k)
      else Find(l, s, k)
  }

  function FindIn(l: nat, rs: Regions, k: Block): Option<Block> {
    match rs
    case One(b) => Find(l, b, k)
    case More(b, r) =>
      var f := Find(l, b, k);
      if f.Some? then f else FindIn(l, r, k)
  }

  function Target(p: Block, l: nat): Block {
    var f := Find(l, p, Nil);
    if f.Some? then f.value else Nil
  }

  // ----- runs -----

  datatype Event = Did(a: nat) | Left(a: nat) | Asked(x: nat, v: nat)

  /** The value of an expression may depend on everything observed so far. */
  type Oracle = (seq<Event>, nat) -> nat

  datatype Config = Run(b: Block) | Eval(c: Cond, t: Config, f: Config)

  /** The next configuration, when the step shows nothing. */
  function Quiet(p: Block, c: Config): Option<Config> {
    match c
    case Eval(True, t, _) => Some(t)
    case Eval(Not(d), t, f) => Some(Eval(d, f, t))
    case Eval(And(d, e), t, f) => Some(Eval(d, Eval(e, t, f), f))
    case Eval(Atom(_), _, _) => None
    case Run(Nil) => None
    case Run(Cons(a, s)) =>
      match a
      case Act(_) => None
      case Halt(_) => None
      case Label(_) => Some(Run(s))
      case Jump(_, _, l) => Some(Run(Target(p, l)))
      case Again(d) =>
        if d.Nest? && d.tag.DoWhile? then Some(Eval(d.tag.c, Run(Cons(d, s)), Run(s))) else Some(Run(s))
      case Nest(tag, rs) =>
        match tag
        case Scope => Some(Run(App(Nth(rs, 0), s)))
        case Branch(_, If(d)) => Some(Eval(d, Run(App(Pick(rs, 0), s)), Run(App(Pick(rs, 1), s))))
        case Branch(_, Switch(_)) => None
        case While(_, d, _, _) => Some(Eval(d, Run(App(Nth(rs, 0), Cons(a, s))), Run(s)))
        case DoWhile(_, _, _, _) => Some(Run(App(Nth(rs, 0), Cons(Again(a), s))))
  }

  datatype State = State(c: Config, tr: seq<Event>)

  function Step(p: Block, o: Oracle, s: State): State {
    var q := Quiet(p, s.c);
    if q.Some? then State(q.value, s.tr)
    else
      match s.c
      case Eval(d, t, f) =>
        if d.Atom? then State(if o(s.tr, d.x) != 0 then t else f, s.tr + [Asked(d.x, o(s.tr, d.x))]) else s
      case Run(Nil) => s
      case Run(Cons(a, k)) =>
        match a
        case Act(x) => State(Run(k), s.tr + [Did(x)])
        case Halt(x) => State(Run(Nil), s.tr + [Left(x)])
        case Nest(Branch(_, Switch(x)), rs) =>
          State(Run(App(Pick(rs, o(s.tr, x)), k)), s.tr + [Asked(x, o(s.tr, x))])
        case _ => s
  }

  function Exec(p: Block, o: Oracle, n: nat): State {
    if n == 0 then State(Run(p), []) else Step(p, o, Exec(p, o, n - 1))
  }

  const End := Run(Nil)

  // ----- behaviours -----

  ghost predicate Shows(p: Block, o: Oracle, tr: seq<Event>) {
    exists n: nat :: Exec(p, o, n).tr == tr
  }

  ghost predicate Ends(p: Block, o: Oracle, tr: seq<Event>) {
    exists n: nat :: Exec(p, o, n) == State(End, tr)
  }

  /** From step `n` on the run neither ends nor shows anything. */
  ghost predicate Silent(p: Block, o: Oracle, n: nat) {
    forall m: nat :: n <= m ==> Exec(p, o, m).tr == Exec(p, o, n).tr && Exec(p, o, m).c != End
  }

  ghost predicate Hangs(p: Block, o: Oracle, tr: seq<Event>) {
    exists n: nat :: Exec(p, o, n).tr == tr && Silent(p, o, n)
  }

  /** The two programs show the same traces, end after the same traces and silently diverge after
      the same traces, whatever the values of the expressions. */
  ghost predicate Equivalent(p: Block, q: Block) {
    forall o: Oracle, tr: seq<Event> ::
      && (Shows(p, o, tr) <==> Shows(q, o, tr))
      && (Ends(p, o, tr) <==> Ends(q, o, tr))
      && (Hangs(p, o, tr) <==> Hangs(q, o, tr))
  }
}
