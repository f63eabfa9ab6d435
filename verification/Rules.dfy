/** The local rewrites of the statement passes, as one family of tree transformations.

    `Apply(r, b)` rewrites every site of rule `r` in `b`.  A site is one statement together with the
    `Span(r)` statements after it in its block; `Local` is what replaces them. */
module Rules {
  import opened Wrappers
  import opened Clift

  /** What becomes of a jump. */
  datatype Fate = Erase | Retarget(kind: JumpKind, l: nat)

  datatype Rule =
    /** Erase or redirect jumps, named by identity. */
    | Jumps(fate: map<nat, Fate>)
    /** Erase label assignments and loop labels. */
    | DropLabels(dead: set<nat>)
    /** Move the `n` statements after branch `id` to the end of its region `i`. */
    | Sink(id: nat, i: nat, n: nat)
    /** Move the jump after branch `id` to the end of every region that falls through. */
    | Spread(id: nat)
    /** Wrap the `n` statements after label `l` in an endless loop, left through `leave` if any. */
    | Enloop(l: nat, n: nat, tag: Tag, leave: Option<Stmt>)
    /** Negate the condition of if `id` and swap its regions. */
    | Swap(id: nat)
    /** Split the conjunction of if `id` into two nested ifs; `back` is the region opposite the
        one reached when both conditions hold. */
    | Split(id: nat, inner: nat, innerElse: bool, back: Block)
    /** Turn the condition of while `id` into a leading conditional break; the first `n` statements of
        the body go into the region opposite the break. */
    | BreakFirst(id: nat, inner: nat, n: nat, thenBreak: bool, exit: Stmt)
    /** Turn the condition of do-while `id` into a trailing conditional break; no jump targets the
        labels in `unused`. */
    | BreakLast(id: nat, inner: nat, thenBreak: bool, exit: Stmt, unused: set<nat>)

  function Single(a: Stmt): Block { Cons(a, Nil) }

  // ----- sites -----

  predicate IsBranch(a: Stmt, id: nat) { a.Nest? && a.tag.Branch? && a.tag.id == id }

  predicate IsDo(a: Stmt, id: nat) { a.Nest? && a.tag.DoWhile? && a.tag.id == id }

  predicate Site(r: Rule, a: Stmt) {
    match r
    case Jumps(fate) => a.Jump? && a.id in fate
    case DropLabels(dead) => a.Label? && a.l in dead
    case Sink(id, _, _) => IsBranch(a, id)
    case Spread(id) => IsBranch(a, id)
    case Enloop(l, _, _, _) => a == Label(l)
    case Swap(id) => IsBranch(a, id)
    case Split(id, _, _, _) => IsBranch(a, id)
    case BreakFirst(id, _, _, _, _) => a.Nest? && a.tag.While? && a.tag.id == id
    case BreakLast(id, _, _, _, _) => IsDo(a, id) || (a.Again? && IsDo(a.loop, id))
  }

  function Span(r: Rule): nat {
    match r
    case Sink(_, _, n) => n
    case Spread(_) => 1
    case Enloop(_, n, _, _) => n
    case _ => 0
  }

  // ----- replacements -----

  function AppendAt(rs: Regions, i: nat, m: Block): Regions {
    match rs
    case One(b) => if i == 0 then One(App(b, m)) else rs
    case More(b, r) => if i == 0 then More(App(b, m), r) else More(b, AppendAt(r, i - 1, m))
  }

  function AppendFalling(rs: Regions, m: Block): Regions {
    match rs
    case One(b) => One(if NoFallEnd(b) then b else App(b, m))
    case More(b, r) => More(if NoFallEnd(b) then b else App(b, m), AppendFalling(r, m))
  }

  function LeaveBlock(leave: Option<Stmt>): Block {
    match leave case None => Nil case Some(j) => Single(j)
  }

  /** `if` with the break on the side that leaves the loop when `c` does not hold. */
  function BreakUnless(inner: nat, c: Cond, thenBreak: bool, exit: Stmt, stay: Block): Stmt {
    if thenBreak && c.Not?
    then Nest(Branch(inner, If(c.c)), More(Single(exit), One(stay)))
    else Nest(Branch(inner, If(c)), More(stay, One(Single(exit))))
  }

  function Nested(inner: nat, c: Cond, innerElse: bool, b: Block, back: Block): Stmt {
    if innerElse && c.Not?
    then Nest(Branch(inner, If(c.c)), More(back, One(b)))
    else Nest(Branch(inner, If(c)), More(b, One(back)))
  }

  function EndlessDo(r: Rule, a: Stmt): Stmt
    requires r.BreakLast? && a.Nest? && a.tag.DoWhile?
  {
    Nest(While(a.tag.id, True, a.tag.brk, a.tag.cont),
         One(App(a.rs.b, Single(BreakUnless(r.inner, a.tag.c, r.thenBreak, r.exit, Nil)))))
  }

  function Local(r: Rule, a: Stmt, m: Block): Block
    requires Site(r, a)
  {
    match r
    case Jumps(fate) =>
      (match fate[a.id]
       case Erase => Nil
       case Retarget(kind, l) => Single(Jump(a.id, kind, l)))
    case DropLabels(_) => Nil
    case Sink(_, i, _) => Single(Nest(a.tag, AppendAt(a.rs, i, m)))
    case Spread(_) => Single(Nest(a.tag, AppendFalling(a.rs, m)))
    case Enloop(_, _, tag, leave) => Cons(a, Single(Nest(tag, One(App(m, LeaveBlock(leave))))))
    case Swap(_) =>
      if a.tag.test.If? && a.rs.More?
      then Single(Nest(Branch(a.tag.id, If(Not(a.tag.test.c))), More(Nth(a.rs.rest, 0), One(a.rs.b))))
      else Single(a)
    case Split(_, inner, innerElse, back) =>
      if a.tag.test.If? && a.tag.test.c.And?
      then Single(Nest(Branch(a.tag.id, If(a.tag.test.c.l)),
                       match a.rs
                       case One(_) => a.rs
                       case More(b, s) => More(Single(Nested(inner, a.tag.test.c.r, innerElse, b, back)), s)))
      else Single(a)
    case BreakFirst(_, inner, n, thenBreak, exit) =>
      Single(Nest(While(a.tag.id, True, a.tag.brk, a.tag.cont),
                  One(Cons(BreakUnless(inner, a.tag.c, thenBreak, exit, Take(n, a.rs.b)), Drop(n, a.rs.b)))))
    case BreakLast(_, inner, thenBreak, exit, _) =>
      if a.Again?
      then Cons(BreakUnless(inner, a.loop.tag.c, thenBreak, exit, Nil), Single(EndlessDo(r, a.loop)))
      else Single(EndlessDo(r, a))
  }

  // ----- application -----

  function Keep(r: Rule, l: Option<nat>): Option<nat> {
    if r.DropLabels? && l.Some? && l.value in r.dead then None else l
  }

  function Retag(r: Rule, tag: Tag): Tag {
    match tag
    case While(id, c, brk, cont) => While(id, c, Keep(r, brk), Keep(r, cont))
    case DoWhile(id, c, brk, cont) => DoWhile(id, c, Keep(r, brk), Keep(r, cont))
    case _ => tag
  }

  function Size(b: Block): nat {
    match b case Nil => 0 case Cons(a, s) => 1 + SizeOf(a) + Size(s)
  }

  function SizeOf(a: Stmt): nat {
    match a
    case Nest(_, rs) => 1 + SizeIn(rs)
    case Again(d) => 1 + SizeOf(d)
    case _ => 0
  }

  function SizeIn(rs: Regions): nat {
    match rs case One(b) => 1 + Size(b) case More(b, r) => 1 + Size(b) + SizeIn(r)
  }

  lemma {:induction n, x} SizeDrop(n: nat, x: Block)
    ensures Size(Drop(n, x)) <= Size(x)
  {}

  function Apply(r: Rule, b: Block): Block
    decreases Size(b)
  {
    match b
    case Nil => Nil
    case Cons(a, s) =>
      if Site(r, a)
      then SizeDrop(Span(r), s); App(Local(r, a, Take(Span(r), s)), Apply(r, Drop(Span(r), s)))
      else Cons(ApplyStmt(r, a), Apply(r, s))
  }

  function ApplyStmt(r: Rule, a: Stmt): Stmt
    decreases SizeOf(a)
  {
    match a
    case Nest(tag, rs) => Nest(Retag(r, tag), ApplyIn(r, rs))
    case Again(d) => Again(ApplyStmt(r, d))
    case _ => a
  }

  function ApplyIn(r: Rule, rs: Regions): Regions
    decreases SizeIn(rs)
  {
    match rs
    case One(b) => One(Apply(r, b))
    case More(b, t) => More(Apply(r, b), ApplyIn(r, t))
  }
}
