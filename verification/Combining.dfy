/** When merging two nested ifs by a conjunction preserves behaviours. */
module Combining {
  import opened Wrappers
  import opened Clift
  import opened Behaviours
  import opened Static
  import opened Rules
  import opened Conditions
  import opened Sites
  import opened Preserve
  import opened WellFormed
  import opened InPlace
  import opened KeepForm
  import opened Branches

  // ----- one statement in the place of another -----

  /** Every occurrence of the statement `op` becomes `m`. */
  function Sub(op: Stmt, m: Stmt, b: Block): Block {
    match b case Nil => Nil case Cons(a, s) => Cons(SubStmt(op, m, a), Sub(op, m, s))
  }

  function SubStmt(op: Stmt, m: Stmt, a: Stmt): Stmt {
    if a == op then m
    else
      match a
      case Nest(tag, rs) => Nest(tag, SubIn(op, m, rs))
      case Again(loop) => Again(SubStmt(op, m, loop))
      case _ => a
  }

  function SubIn(op: Stmt, m: Stmt, rs: Regions): Regions {
    match rs case One(b) => One(Sub(op, m, b)) case More(b, r) => More(Sub(op, m, b), SubIn(op, m, r))
  }

  lemma {:induction false} SubApp(op: Stmt, m: Stmt, x: Block, y: Block)
    ensures Sub(op, m, App(x, y)) == App(Sub(op, m, x), Sub(op, m, y))
  {
    if x.Cons? { SubApp(op, m, x.tl, y); }
  }

  lemma {:induction false} SubNth(op: Stmt, m: Stmt, rs: Regions, i: nat)
    ensures Count(SubIn(op, m, rs)) == Count(rs)
    ensures i < Count(rs) ==> Nth(SubIn(op, m, rs), i) == Sub(op, m, Nth(rs, i))
  {
    if rs.More? { SubNth(op, m, rs.rest, if i > 0 then i - 1 else 0); }
  }

  lemma SubPick(op: Stmt, m: Stmt, rs: Regions, i: nat)
    ensures Pick(SubIn(op, m, rs), i) == Sub(op, m, Pick(rs, i))
  {
    SubNth(op, m, rs, i);
    SubNth(op, m, rs, 0);
  }

  lemma {:induction false} SubAbsent(op: Stmt, m: Stmt, id: nat, b: Block)
    requires Named(op, id) && id !in Ops(b) && Plain(b)
    ensures Sub(op, m, b) == b
  {
    if b.Cons? {
      SubAbsent(op, m, id, b.tl);
      if b.hd.Nest? { SubAbsentIn(op, m, id, b.hd.rs); }
    }
  }

  lemma {:induction false} SubAbsentIn(op: Stmt, m: Stmt, id: nat, rs: Regions)
    requires Named(op, id) && id !in OpsIn(rs) && PlainIn(rs)
    ensures SubIn(op, m, rs) == rs
  {
    SubAbsent(op, m, id, rs.b);
    if rs.More? { SubAbsentIn(op, m, id, rs.rest); }
  }

  /** In a program whose operations are told apart, this is what `Put` does. */
  lemma {:induction false} SubPut(op: Stmt, m: Stmt, id: nat, b: Block)
    requires Plain(b) && DistinctOps(b) && Seek(id, b).Some? && Seek(id, b).value.Cons?
    requires Seek(id, b).value.hd == op && Named(op, id)
    ensures Put(id, Single(m), b) == Sub(op, m, b)
  {
    var Cons(a, s) := b;
    SeekOps(id, b);
    if Named(a, id) {
      SubAbsent(op, m, id, s);
      assert App(Single(m), s) == Cons(m, App(Nil, s));
    } else {
      if a.Nest? { SeekOpsIn(id, a.rs); }
      if a.Nest? && SeekIn(id, a.rs).Some? {
        SubPutIn(op, m, id, a.rs);
        PutAbsent(id, Single(m), s);
        SubAbsent(op, m, id, s);
      } else {
        SubPut(op, m, id, s);
        if a.Nest? {
          PutAbsentIn(id, Single(m), a.rs);
          SubAbsentIn(op, m, id, a.rs);
        }
      }
    }
  }

  lemma {:induction false} SubPutIn(op: Stmt, m: Stmt, id: nat, rs: Regions)
    requires PlainIn(rs) && DistinctOpsIn(rs) && SeekIn(id, rs).Some? && SeekIn(id, rs).value.Cons?
    requires SeekIn(id, rs).value.hd == op && Named(op, id)
    ensures PutIn(id, Single(m), rs) == SubIn(op, m, rs)
  {
    SeekOps(id, rs.b);
    if Seek(id, rs.b).Some? {
      SubPut(op, m, id, rs.b);
      if rs.More? {
        PutAbsentIn(id, Single(m), rs.rest);
        SubAbsentIn(op, m, id, rs.rest);
      }
    } else {
      PutAbsent(id, Single(m), rs.b);
      SubAbsent(op, m, id, rs.b);
      SubPutIn(op, m, id, rs.rest);
    }
  }

  // ----- labels -----

  function SubOption(op: Stmt, m: Stmt, f: Option<Block>): Option<Block> {
    if f.Some? then Some(Sub(op, m, f.value)) else None
  }

  predicate IsIf(a: Stmt) { a.Nest? && a.tag.Branch? && a.tag.test.If? }

  /** The two statements assign the same labels, at the same places. */
  ghost predicate SameLabels(op: Stmt, m: Stmt) {
    IsIf(op) && IsIf(m)
    && forall l, k :: FindIn(l, m.rs, Sub(op, m, k)) == SubOption(op, m, FindIn(l, op.rs, k))
  }

  lemma SubInner(op: Stmt, m: Stmt, a: Stmt, k: Block)
    requires a.Nest? && a != op && IsIf(op)
    ensures Inner(SubStmt(op, m, a), Sub(op, m, k)) == Sub(op, m, Inner(a, k))
  {}

  lemma {:induction false} FindSub(op: Stmt, m: Stmt, l: nat, b: Block, k: Block)
    requires SameLabels(op, m)
    ensures Find(l, Sub(op, m, b), Sub(op, m, k)) == SubOption(op, m, Find(l, b, k))
  {
    match b
    case Nil =>
    case Cons(a, s) =>
      SubApp(op, m, b, k);
      SubApp(op, m, s, k);
      FindSub(op, m, l, s, k);
      if a == op {
        assert FindIn(l, m.rs, Sub(op, m, App(s, k))) == SubOption(op, m, FindIn(l, op.rs, App(s, k)));
      } else if a.Nest? {
        SubInner(op, m, a, App(s, k));
        FindSubIn(op, m, l, a.rs, Inner(a, App(s, k)));
      }
  }

  lemma {:induction false} FindSubIn(op: Stmt, m: Stmt, l: nat, rs: Regions, k: Block)
    requires SameLabels(op, m)
    ensures FindIn(l, SubIn(op, m, rs), Sub(op, m, k)) == SubOption(op, m, FindIn(l, rs, k))
  {
    FindSub(op, m, l, rs.b, k);
    if rs.More? { FindSubIn(op, m, l, rs.rest, k); }
  }

  /** The same for code that does not have the statement. */
  lemma {:induction false} FindAbsent(op: Stmt, m: Stmt, id: nat, l: nat, b: Block, k: Block)
    requires IsIf(op) && Named(op, id) && id !in Ops(b) && Plain(b)
    ensures Find(l, b, Sub(op, m, k)) == SubOption(op, m, Find(l, b, k))
  {
    match b
    case Nil =>
    case Cons(a, s) =>
      SubAbsent(op, m, id, b);
      SubAbsent(op, m, id, s);
      SubApp(op, m, b, k);
      SubApp(op, m, s, k);
      FindAbsent(op, m, id, l, s, k);
      if a.Nest? {
        SubInner(op, m, a, App(s, k));
        FindAbsentIn(op, m, id, l, a.rs, Inner(a, App(s, k)));
      }
  }

  lemma {:induction false} FindAbsentIn(op: Stmt, m: Stmt, id: nat, l: nat, rs: Regions, k: Block)
    requires IsIf(op) && Named(op, id) && id !in OpsIn(rs) && PlainIn(rs)
    ensures FindIn(l, rs, Sub(op, m, k)) == SubOption(op, m, FindIn(l, rs, k))
  {
    FindAbsent(op, m, id, l, rs.b, k);
    if rs.More? { FindAbsentIn(op, m, id, l, rs.rest, k); }
  }

  // ----- the runs before the statement is reached -----

  predicate At(c: Config, op: Stmt) { c.Run? && c.b.Cons? && c.b.hd == op }

  function SubConfig(op: Stmt, m: Stmt, c: Config): Config {
    match c
    case Run(b) => Run(Sub(op, m, b))
    case Eval(d, t, f) => Eval(d, SubConfig(op, m, t), SubConfig(op, m, f))
  }

  function SubState(op: Stmt, m: Stmt, s: State): State { State(SubConfig(op, m, s.c), s.tr) }

  lemma TargetSub(op: Stmt, m: Stmt, p: Block, l: nat)
    requires SameLabels(op, m)
    ensures Target(Sub(op, m, p), l) == Sub(op, m, Target(p, l))
  {
    FindSub(op, m, l, p, Nil);
  }

  /** A silent step, before and after the replacement. */
  ghost predicate QuietSame(op: Stmt, m: Stmt, p: Block, c: Config) {
    var x, y := Quiet(p, c), Quiet(Sub(op, m, p), SubConfig(op, m, c));
    x.Some? == y.Some? && (x.Some? ==> y.value == SubConfig(op, m, x.value))
  }

  lemma SubCons(op: Stmt, m: Stmt, a: Stmt, k: Block)
    ensures Sub(op, m, Cons(a, k)) == Cons(SubStmt(op, m, a), Sub(op, m, k))
  {}

  lemma QuietSub(op: Stmt, m: Stmt, p: Block, c: Config)
    requires SameLabels(op, m) && !At(c, op)
    ensures QuietSame(op, m, p, c)
  {
    if c.Run? && c.b.Cons? {
      var Cons(a, k) := c.b;
      SubCons(op, m, a, k);
      match a
      case Jump(_, _, l) => TargetSub(op, m, p, l);
      case Nest(_, _) => QuietSubNest(op, m, p, a, k);
      case Again(d) => QuietSubAgain(op, m, p, d, k);
      case _ => assert SubStmt(op, m, a) == a;
    }
  }

  lemma QuietSubAgain(op: Stmt, m: Stmt, p: Block, d: Stmt, k: Block)
    requires IsIf(op) && IsIf(m)
    ensures QuietSame(op, m, p, Run(Cons(Again(d), k)))
  {
    var e := SubStmt(op, m, d);
    assert (d.Nest? && d.tag.DoWhile?) == (e.Nest? && e.tag.DoWhile?);
    SubCons(op, m, d, k);
    SubCons(op, m, Again(d), k);
    assert SubStmt(op, m, Again(d)) == Again(e);
    assert SubConfig(op, m, Run(Cons(Again(d), k))) == Run(Cons(Again(e), Sub(op, m, k)));
  }

  lemma QuietSubNest(op: Stmt, m: Stmt, p: Block, a: Stmt, k: Block)
    requires a.Nest? && a != op && IsIf(op)
    ensures QuietSame(op, m, p, Run(Cons(a, k)))
  {
    var rs := SubIn(op, m, a.rs);
    SubCons(op, m, a, k);
    assert SubConfig(op, m, Run(Cons(a, k))) == Run(Cons(Nest(a.tag, rs), Sub(op, m, k)));
    SubNth(op, m, a.rs, 0);
    match a.tag
    case Scope => SubApp(op, m, Nth(a.rs, 0), k);
    case Branch(_, If(_)) =>
      SubPick(op, m, a.rs, 0);
      SubPick(op, m, a.rs, 1);
      SubApp(op, m, Pick(a.rs, 0), k);
      SubApp(op, m, Pick(a.rs, 1), k);
    case Branch(_, Switch(x)) =>
    case While(_, _, _, _) => SubApp(op, m, Nth(a.rs, 0), Cons(a, k));
    case DoWhile(_, _, _, _) =>
      SubCons(op, m, Again(a), k);
      assert SubStmt(op, m, Again(a)) == Again(SubStmt(op, m, a));
      SubApp(op, m, Nth(a.rs, 0), Cons(Again(a), k));
  }

  lemma StepSub(op: Stmt, m: Stmt, p: Block, o: Oracle, s: State)
    requires SameLabels(op, m) && !At(s.c, op)
    ensures Step(Sub(op, m, p), o, SubState(op, m, s)) == SubState(op, m, Step(p, o, s))
  {
    QuietSub(op, m, p, s.c);
    if Quiet(p, s.c).None? && s.c.Run? && s.c.b.Cons? {
      var Cons(a, k) := s.c.b;
      SubCons(op, m, a, k);
      if a.Nest? && a.tag.Branch? && a.tag.test.Switch? {
        var i := o(s.tr, a.tag.test.x);
        SubPick(op, m, a.rs, i);
        SubApp(op, m, Pick(a.rs, i), k);
        assert SubStmt(op, m, a) == Nest(a.tag, SubIn(op, m, a.rs));
      } else {
        assert SubStmt(op, m, a) == a;
      }
    }
  }

  lemma {:induction false} ExecSub(op: Stmt, m: Stmt, p: Block, o: Oracle, n: nat)
    requires SameLabels(op, m) && forall i: nat :: i < n ==> !At(Exec(p, o, i).c, op)
    ensures Exec(Sub(op, m, p), o, n) == SubState(op, m, Exec(p, o, n))
  {
    if n > 0 {
      ExecSub(op, m, p, o, n - 1);
      StepSub(op, m, p, o, Exec(p, o, n - 1));
    }
  }

  // ----- evaluating a condition -----

  function Steps(p: Block, o: Oracle, s: State, k: nat): State {
    if k == 0 then s else Step(p, o, Steps(p, o, s, k - 1))
  }

  lemma {:induction false} ExecSteps(p: Block, o: Oracle, n: nat, k: nat)
    ensures Exec(p, o, n + k) == Steps(p, o, Exec(p, o, n), k)
    decreases k
  {
    if k > 0 { ExecSteps(p, o, n, k - 1); }
  }

  lemma {:induction false} StepsAdd(p: Block, o: Oracle, s: State, j: nat, k: nat)
    ensures Steps(p, o, s, j + k) == Steps(p, o, Steps(p, o, s, j), k)
    decreases k
  {
    if k > 0 { StepsAdd(p, o, s, j, k - 1); }
  }

  /** The value of a condition, the trace after it, and the number of steps. */
  datatype Outcome = Outcome(v: bool, tr: seq<Event>, steps: nat)

  function Ask(o: Oracle, c: Cond, tr: seq<Event>): Outcome {
    match c
    case True => Outcome(true, tr, 1)
    case Atom(x) => Outcome(o(tr, x) != 0, tr + [Asked(x, o(tr, x))], 1)
    case Not(d) => var a := Ask(o, d, tr); Outcome(!a.v, a.tr, a.steps + 1)
    case And(d, e) =>
      var a := Ask(o, d, tr);
      if a.v then var b := Ask(o, e, a.tr); Outcome(b.v, b.tr, 1 + a.steps + b.steps)
      else Outcome(false, a.tr, 1 + a.steps)
  }

  lemma {:induction false} AskSteps(p: Block, o: Oracle, c: Cond, t: Config, f: Config, tr: seq<Event>)
    ensures var a := Ask(o, c, tr);
            Steps(p, o, State(Eval(c, t, f), tr), a.steps) == State(if a.v then t else f, a.tr)
    decreases c
  {
    var s := State(Eval(c, t, f), tr);
    assert Steps(p, o, s, 1) == Step(p, o, Steps(p, o, s, 0));
    match c
    case True =>
    case Atom(x) =>
    case Not(d) =>
      AskSteps(p, o, d, f, t, tr);
      StepsAdd(p, o, s, 1, Ask(o, d, tr).steps);
    case And(d, e) =>
      var a := Ask(o, d, tr);
      AskSteps(p, o, d, Eval(e, t, f), f, tr);
      StepsAdd(p, o, s, 1, a.steps);
      if a.v {
        AskSteps(p, o, e, t, f, a.tr);
        StepsAdd(p, o, s, 1 + a.steps, Ask(o, e, a.tr).steps);
      }
  }

  // ----- code that does not ask -----

  predicate CondFree(y: nat, c: Cond) {
    match c
    case True => true
    case Atom(x) => x != y
    case Not(d) => CondFree(y, d)
    case And(d, e) => CondFree(y, d) && CondFree(y, e)
  }

  predicate TagFree(y: nat, tag: Tag) {
    match tag
    case Scope => true
    case Branch(_, If(c)) => CondFree(y, c)
    case Branch(_, Switch(x)) => x != y
    case While(_, c, _, _) => CondFree(y, c)
    case DoWhile(_, c, _, _) => CondFree(y, c)
  }

  /** The atom `y` is asked nowhere in the block, except perhaps in the statement `op`. */
  predicate Free(y: nat, op: Stmt, b: Block) {
    match b case Nil => true case Cons(a, s) => FreeStmt(y, op, a) && Free(y, op, s)
  }

  predicate FreeStmt(y: nat, op: Stmt, a: Stmt) {
    a == op
    || match a
       case Nest(tag, rs) => TagFree(y, tag) && FreeIn(y, op, rs)
       case Again(loop) => FreeStmt(y, op, loop)
       case _ => true
  }

  predicate FreeIn(y: nat, op: Stmt, rs: Regions) {
    match rs case One(b) => Free(y, op, b) case More(b, r) => Free(y, op, b) && FreeIn(y, op, r)
  }

  lemma {:induction false} FreeApp(y: nat, op: Stmt, x: Block, z: Block)
    ensures Free(y, op, App(x, z)) <==> Free(y, op, x) && Free(y, op, z)
  {
    if x.Cons? { FreeApp(y, op, x.tl, z); }
  }

  lemma {:induction false} FreeNth(y: nat, op: Stmt, rs: Regions, i: nat)
    requires FreeIn(y, op, rs) && i < Count(rs)
    ensures Free(y, op, Nth(rs, i))
  {
    if i > 0 { FreeNth(y, op, rs.rest, i - 1); }
  }

  lemma FreePick(y: nat, op: Stmt, rs: Regions, i: nat, k: Block)
    requires FreeIn(y, op, rs) && Free(y, op, k)
    ensures Free(y, op, App(Pick(rs, i), k))
  {
    FreeNth(y, op, rs, if i < Count(rs) then i else 0);
    FreeApp(y, op, Pick(rs, i), k);
  }

  /** Jumping into the statement leads to code that does not ask. */
  ghost predicate LabelsFree(y: nat, op: Stmt) {
    IsIf(op)
    && forall l, k :: Free(y, op, k) && FindIn(l, op.rs, k).Some? ==> Free(y, op, FindIn(l, op.rs, k).value)
  }

  lemma {:induction false} FindFree(y: nat, op: Stmt, id: nat, l: nat, b: Block, k: Block)
    requires IsIf(op) && Named(op, id) && (LabelsFree(y, op) || id !in Ops(b))
    requires Free(y, op, b) && Free(y, op, k) && Find(l, b, k).Some?
    ensures Free(y, op, Find(l, b, k).value)
  {
    var Cons(a, s) := b;
    FreeApp(y, op, b, k);
    FreeApp(y, op, s, k);
    if a == Label(l) {
    } else if a.Nest? {
      var k1 := Inner(a, App(s, k));
      if a == op {
        assert FindIn(l, op.rs, App(s, k)) == FindIn(l, a.rs, k1);
      } else {
        assert Free(y, op, k1);
        if FindIn(l, a.rs, k1).Some? { FindFreeIn(y, op, id, l, a.rs, k1); }
      }
      if Find(l, s, k).Some? { FindFree(y, op, id, l, s, k); }
    } else {
      FindFree(y, op, id, l, s, k);
    }
  }

  lemma {:induction false} FindFreeIn(y: nat, op: Stmt, id: nat, l: nat, rs: Regions, k: Block)
    requires IsIf(op) && Named(op, id) && (LabelsFree(y, op) || id !in OpsIn(rs))
    requires FreeIn(y, op, rs) && Free(y, op, k) && FindIn(l, rs, k).Some?
    ensures Free(y, op, FindIn(l, rs, k).value)
  {
    if Find(l, rs.b, k).Some? { FindFree(y, op, id, l, rs.b, k); } else { FindFreeIn(y, op, id, l, rs.rest, k); }
  }

  lemma TargetFree(y: nat, op: Stmt, p: Block, l: nat)
    requires LabelsFree(y, op) && Free(y, op, p)
    ensures Free(y, op, Target(p, l))
  {
    if Find(l, p, Nil).Some? { FindFree(y, op, op.tag.id, l, p, Nil); }
  }

  /** Replacing the statement keeps the rest as it is. */
  lemma {:induction false} SubFree(y: nat, op: Stmt, m: Stmt, b: Block)
    requires Free(y, op, b)
    ensures Free(y, m, Sub(op, m, b))
  {
    if b.Cons? {
      SubFree(y, op, m, b.tl);
      SubFreeStmt(y, op, m, b.hd);
    }
  }

  lemma {:induction false} SubFreeStmt(y: nat, op: Stmt, m: Stmt, a: Stmt)
    requires FreeStmt(y, op, a)
    ensures FreeStmt(y, m, SubStmt(op, m, a))
  {
    if a.Again? && a != op { SubFreeStmt(y, op, m, a.loop); }
    if a.Nest? && a != op { SubFreeIn(y, op, m, a.rs); }
  }

  lemma {:induction false} SubFreeIn(y: nat, op: Stmt, m: Stmt, rs: Regions)
    requires FreeIn(y, op, rs)
    ensures FreeIn(y, m, SubIn(op, m, rs))
  {
    SubFree(y, op, m, rs.b);
    if rs.More? { SubFreeIn(y, op, m, rs.rest); }
  }

  // ----- until the next event -----

  datatype First = Asks(x: nat) | Value(v: bool)

  /** The first atom that a condition asks, or its value. */
  function FirstOf(c: Cond): First {
    match c
    case True => Value(true)
    case Atom(x) => Asks(x)
    case Not(d) => var f := FirstOf(d); if f.Value? then Value(!f.v) else f
    case And(d, e) => var f := FirstOf(d); if f == Value(true) then FirstOf(e) else f
  }

  lemma {:induction c} FirstFree(y: nat, c: Cond)
    requires CondFree(y, c)
    ensures FirstOf(c) != Asks(y)
  {}

  lemma {:induction false} FirstValue(o: Oracle, c: Cond, tr: seq<Event>)
    ensures FirstOf(c).Value? ==> Ask(o, c, tr).v == FirstOf(c).v && Ask(o, c, tr).tr == tr
  {
    match c
    case True =>
    case Atom(_) =>
    case Not(d) => FirstValue(o, d, tr);
    case And(d, e) => FirstValue(o, d, tr); FirstValue(o, e, tr);
  }

  /** The next event does not ask `y`. */
  predicate Safe(y: nat, op: Stmt, c: Config) {
    match c
    case Run(b) => Free(y, op, b)
    case Eval(d, t, f) =>
      match FirstOf(d)
      case Asks(x) => x != y
      case Value(v) => if v then Safe(y, op, t) else Safe(y, op, f)
  }

  /** Reaching the statement does not lead to the question without another event before it. */
  predicate Guarded(y: nat, op: Stmt) {
    IsIf(op)
    && match FirstOf(op.tag.test.c)
       case Asks(x) => x != y
       case Value(v) => Free(y, op, Pick(op.rs, if v then 0 else 1))
  }

  lemma AgainFree(y: nat, op: Stmt, d: Stmt)
    requires IsIf(op) && FreeStmt(y, op, Again(d))
    ensures FreeStmt(y, op, d)
  {}

  lemma QuietSafe(y: nat, op: Stmt, p: Block, c: Config)
    requires LabelsFree(y, op) && Guarded(y, op) && Free(y, op, p) && Safe(y, op, c) && Quiet(p, c).Some?
    ensures Safe(y, op, Quiet(p, c).value)
  {
    if c.Run? {
      var Cons(a, s) := c.b;
      if a.Jump? { TargetFree(y, op, p, a.l); }
      if a == op {
        FreeApp(y, op, Pick(op.rs, 0), s);
        FreeApp(y, op, Pick(op.rs, 1), s);
      } else if a.Again? {
        AgainFree(y, op, a.loop);
        if a.loop.Nest? && a.loop.tag.DoWhile? { FirstFree(y, a.loop.tag.c); }
      } else if a.Nest? {
        NestSafe(y, op, p, a, s);
      }
    }
  }

  lemma NestSafe(y: nat, op: Stmt, p: Block, a: Stmt, s: Block)
    requires a.Nest? && a != op && FreeStmt(y, op, a) && Free(y, op, s) && Quiet(p, Run(Cons(a, s))).Some?
    ensures Safe(y, op, Quiet(p, Run(Cons(a, s))).value)
  {
    match a.tag
    case Scope => FreeNth(y, op, a.rs, 0); FreeApp(y, op, Nth(a.rs, 0), s);
    case Branch(_, If(c)) => FirstFree(y, c); FreePick(y, op, a.rs, 0, s); FreePick(y, op, a.rs, 1, s);
    case While(_, c, _, _) => FirstFree(y, c); FreeNth(y, op, a.rs, 0); FreeApp(y, op, Nth(a.rs, 0), Cons(a, s));
    case DoWhile(_, _, _, _) => FreeNth(y, op, a.rs, 0); FreeApp(y, op, Nth(a.rs, 0), Cons(Again(a), s));
  }

  predicate IsAsking(e: Event, y: nat) { e.Asked? && e.x == y }

  lemma NoisySafe(y: nat, op: Stmt, p: Block, o: Oracle, s: State)
    requires IsIf(op) && Safe(y, op, s.c) && Quiet(p, s.c).None? && Step(p, o, s).tr != s.tr
    ensures exists e :: Step(p, o, s).tr == s.tr + [e] && !IsAsking(e, y)
  {
    var n := Step(p, o, s);
    match s.c
    case Eval(d, _, _) => assert FirstOf(d) == Asks(d.x) && n.tr == s.tr + [Asked(d.x, o(s.tr, d.x))];
    case Run(Cons(a, k)) =>
      match a
      case Act(x) => assert n.tr == s.tr + [Did(x)];
      case Halt(x) => assert n.tr == s.tr + [Left(x)];
      case Nest(Branch(_, Switch(x)), rs) =>
        assert FreeStmt(y, op, a);
        assert n.tr == s.tr + [Asked(x, o(s.tr, x))];
  }

  lemma StepSafe(y: nat, op: Stmt, p: Block, o: Oracle, s: State)
    requires LabelsFree(y, op) && Guarded(y, op) && Free(y, op, p) && Safe(y, op, s.c)
    ensures var n := Step(p, o, s);
            (n.tr == s.tr && Safe(y, op, n.c)) || exists e :: n.tr == s.tr + [e] && !IsAsking(e, y)
  {
    var n := Step(p, o, s);
    if Quiet(p, s.c).Some? {
      QuietSafe(y, op, p, s.c);
    } else if n.tr != s.tr {
      NoisySafe(y, op, p, o, s);
    }
  }

  /** The event after the trace of a safe state is never the question. */
  lemma {:induction false} NeverAsks(y: nat, op: Stmt, p: Block, o: Oracle, s: State, k: nat)
    requires LabelsFree(y, op) && Guarded(y, op) && Free(y, op, p) && Safe(y, op, s.c)
    ensures var n := Steps(p, o, s, k);
            (n.tr == s.tr && Safe(y, op, n.c)) || (|n.tr| > |s.tr| && s.tr <= n.tr && !IsAsking(n.tr[|s.tr|], y))
  {
    if k > 0 {
      NeverAsks(y, op, p, o, s, k - 1);
      var n := Steps(p, o, s, k - 1);
      StepGrows(p, o, n);
      if n.tr == s.tr { StepSafe(y, op, p, o, n); }
    }
  }

  lemma NotShown(y: nat, op: Stmt, p: Block, o: Oracle, n: nat, e: Event)
    requires LabelsFree(y, op) && Guarded(y, op) && Free(y, op, p) && Safe(y, op, Exec(p, o, n).c) && IsAsking(e, y)
    ensures !Shows(p, o, Exec(p, o, n).tr + [e])
  {
    var s := Exec(p, o, n);
    forall i: nat ensures Exec(p, o, i).tr != s.tr + [e] {
      if i <= n {
        TraceGrows(p, o, i, n);
      } else {
        ExecSteps(p, o, n, i - n);
        NeverAsks(y, op, p, o, s, i - n);
      }
    }
  }

  // ----- the first time that the statement is reached -----

  predicate FreeConfig(y: nat, op: Stmt, c: Config) {
    match c
    case Run(b) => Free(y, op, b)
    case Eval(_, t, f) => FreeConfig(y, op, t) && FreeConfig(y, op, f)
  }

  lemma StepFree(y: nat, op: Stmt, p: Block, o: Oracle, s: State)
    requires LabelsFree(y, op) && Free(y, op, p) && FreeConfig(y, op, s.c) && !At(s.c, op)
    ensures FreeConfig(y, op, Step(p, o, s).c)
  {
    if s.c.Run? && s.c.b.Cons? {
      var Cons(a, k) := s.c.b;
      if a.Jump? { TargetFree(y, op, p, a.l); }
      if a.Again? { AgainFree(y, op, a.loop); }
      if a.Nest? { StepFreeNest(y, op, p, o, s); }
    }
  }

  lemma StepFreeNest(y: nat, op: Stmt, p: Block, o: Oracle, s: State)
    requires FreeConfig(y, op, s.c) && !At(s.c, op) && s.c.Run? && s.c.b.Cons? && s.c.b.hd.Nest?
    ensures FreeConfig(y, op, Step(p, o, s).c)
  {
    var Cons(a, k) := s.c.b;
    assert FreeStmt(y, op, a) && FreeIn(y, op, a.rs);
    match a.tag
    case Scope => FreeNth(y, op, a.rs, 0); FreeApp(y, op, Nth(a.rs, 0), k);
    case Branch(_, If(c)) => FreePick(y, op, a.rs, 0, k); FreePick(y, op, a.rs, 1, k);
    case Branch(_, Switch(x)) => FreePick(y, op, a.rs, o(s.tr, x), k);
    case While(_, c, _, _) => FreeNth(y, op, a.rs, 0); FreeApp(y, op, Nth(a.rs, 0), Cons(a, k));
    case DoWhile(_, _, _, _) => FreeNth(y, op, a.rs, 0); FreeApp(y, op, Nth(a.rs, 0), Cons(Again(a), k));
  }

  lemma {:induction false} ExecFree(y: nat, op: Stmt, p: Block, o: Oracle, n: nat)
    requires LabelsFree(y, op) && Free(y, op, p) && forall i: nat :: i < n ==> !At(Exec(p, o, i).c, op)
    ensures FreeConfig(y, op, Exec(p, o, n).c)
  {
    if n > 0 {
      ExecFree(y, op, p, o, n - 1);
      StepFree(y, op, p, o, Exec(p, o, n - 1));
    }
  }

  lemma {:induction false} FirstTime(op: Stmt, p: Block, o: Oracle, n: nat) returns (k: nat)
    requires At(Exec(p, o, n).c, op)
    ensures k <= n && At(Exec(p, o, k).c, op) && forall i: nat :: i < k ==> !At(Exec(p, o, i).c, op)
  {
    if i: nat :| i < n && At(Exec(p, o, i).c, op) { k := FirstTime(op, p, o, i); } else { k := n; }
  }

  // ----- merging in an else-region -----

  /** The inner if asks `y`, and nothing else of the program does. */
  predicate AsksAlone(p: Block, op: Stmt, outerElse: bool, inner: Stmt, y: nat)
    requires TwoWay(op) && TwoWay(inner)
  {
    && inner.tag.test.c == Atom(y) && CondFree(y, op.tag.test.c) && FreeIn(y, op, inner.rs)
    && Free(y, op, p) && Free(y, op, Regions2(op, outerElse).1)
  }

  /** Some run of the program comes to the statement. */
  ghost predicate Reached(p: Block, op: Stmt) {
    exists o: Oracle, n: nat :: At(Exec(p, o, n).c, op)
  }

  /** The outer if `op` with the inner one in its else-region, and the if `m` that the pass makes of them. */
  datatype Case = Case(op: Stmt, m: Stmt, inner: Stmt, y: nat, id: nat, other: Block, andThen: Block, opposite: Block)

  predicate InElse(x: Case) {
    && IsIf(x.op) && IsIf(x.m) && IsIf(x.inner) && Named(x.op, x.id) && Named(x.m, x.id)
    && x.op.rs == More(x.other, One(Single(x.inner))) && x.m.rs == More(x.other, One(x.andThen))
    && (x.inner.rs == More(x.andThen, One(x.opposite)) || x.inner.rs == More(x.opposite, One(x.andThen)))
    && Labels(x.opposite) == {}
    && x.inner.tag.test.c == Atom(x.y) && CondFree(x.y, x.op.tag.test.c)
    && (x.m.tag.test.c == And(x.op.tag.test.c, Atom(x.y)) || x.m.tag.test.c == And(x.op.tag.test.c, Not(Atom(x.y))))
    && x.id !in Ops(x.other) + Ops(x.andThen) && Plain(x.other) && Plain(x.andThen)
    && Free(x.y, x.op, x.other) && Free(x.y, x.op, x.andThen)
  }

  /** Jumping into either statement leads into the same two regions. */
  lemma FindElse(x: Case, l: nat, k: Block)
    requires InElse(x)
    ensures var f := if Find(l, x.other, k).Some? then Find(l, x.other, k) else Find(l, x.andThen, k);
            FindIn(l, x.op.rs, k) == f && FindIn(l, x.m.rs, k) == f
  {
    FindLabel(l, x.opposite, k);
    FindTwo(l, x.andThen, x.opposite, k);
    FindTwo(l, x.opposite, x.andThen, k);
    FindTwo(l, x.other, Single(x.inner), k);
    FindTwo(l, x.other, x.andThen, k);
    assert App(Nil, k) == k;
    assert Find(l, Single(x.inner), k) == FindIn(l, x.inner.rs, k);
  }

  lemma ElseLabels(x: Case)
    requires InElse(x)
    ensures SameLabels(x.op, x.m)
  {
    forall l, k ensures FindIn(l, x.m.rs, Sub(x.op, x.m, k)) == SubOption(x.op, x.m, FindIn(l, x.op.rs, k)) {
      FindElse(x, l, k);
      FindElse(x, l, Sub(x.op, x.m, k));
      FindAbsent(x.op, x.m, x.id, l, x.other, k);
      FindAbsent(x.op, x.m, x.id, l, x.andThen, k);
    }
  }

  lemma ElseFree(x: Case)
    requires InElse(x)
    ensures Free(x.y, x.m, x.other) && Free(x.y, x.m, x.andThen)
    ensures LabelsFree(x.y, x.op) && LabelsFree(x.y, x.m)
  {
    SubFree(x.y, x.op, x.m, x.other);
    SubFree(x.y, x.op, x.m, x.andThen);
    SubAbsent(x.op, x.m, x.id, x.other);
    SubAbsent(x.op, x.m, x.id, x.andThen);
    RegionsFree(x, x.op);
    RegionsFree(x, x.m);
  }

  lemma RegionsFree(x: Case, a: Stmt)
    requires InElse(x) && (a == x.op || a == x.m) && Free(x.y, a, x.other) && Free(x.y, a, x.andThen)
    ensures LabelsFree(x.y, a)
  {
    forall l, k | Free(x.y, a, k) && FindIn(l, a.rs, k).Some? ensures Free(x.y, a, FindIn(l, a.rs, k).value) {
      FindElse(x, l, k);
      if Find(l, x.other, k).Some? {
        FindFree(x.y, a, x.id, l, x.other, k);
      } else {
        FindFree(x.y, a, x.id, l, x.andThen, k);
      }
    }
  }

  // ----- the two runs part -----

  lemma OneStep(p: Block, o: Oracle, s: State)
    ensures Steps(p, o, s, 1) == Step(p, o, s)
  {
    assert Steps(p, o, s, 0) == s;
  }

  function AfterOuter(x: Case, a: Outcome, k: Block): State {
    State(Run(if a.v then App(x.other, k) else Cons(x.inner, k)), a.tr)
  }

  function AfterMerged(x: Case, a: Outcome, k: Block): State
    requires InElse(x)
  {
    var t, f := Run(App(x.other, k)), Run(App(x.andThen, k));
    State(if a.v then Eval(x.m.tag.test.c.r, t, f) else f, a.tr)
  }

  /** The original statement asks `y` after the outer condition was false. */
  lemma OuterSteps(x: Case, p: Block, o: Oracle, k: Block, tr: seq<Event>)
    requires InElse(x)
    ensures var a := Ask(o, x.op.tag.test.c, tr);
            Steps(p, o, State(Run(Cons(x.op, k)), tr), 1 + a.steps) == AfterOuter(x, a, k)
  {
    var s, c := State(Run(Cons(x.op, k)), tr), x.op.tag.test.c;
    var t, f := Run(App(x.other, k)), Run(Cons(x.inner, k));
    assert App(Nil, k) == k && App(Single(x.inner), k) == Cons(x.inner, App(Nil, k));
    assert Nth(x.op.rs, 1) == Single(x.inner) by { assert Nth(x.op.rs, 1) == Nth(x.op.rs.rest, 0); }
    assert Pick(x.op.rs, 0) == x.other && Pick(x.op.rs, 1) == Single(x.inner);
    OneStep(p, o, s);
    assert Step(p, o, s) == State(Eval(c, t, f), tr);
    AskSteps(p, o, c, t, f, tr);
    StepsAdd(p, o, s, 1, Ask(o, c, tr).steps);
  }

  lemma InnerSteps(x: Case, p: Block, o: Oracle, k: Block, tr: seq<Event>)
    requires InElse(x)
    ensures Steps(p, o, State(Run(Cons(x.inner, k)), tr), 2).tr == tr + [Asked(x.y, o(tr, x.y))]
  {
    var s := State(Run(Cons(x.inner, k)), tr);
    OneStep(p, o, s);
    assert Steps(p, o, s, 2) == Step(p, o, Steps(p, o, s, 1));
    assert Step(p, o, s).c.Eval? && Step(p, o, s).c.c == Atom(x.y);
  }

  /** The merged statement asks it after the outer condition was true. */
  lemma MergedSteps(x: Case, q: Block, o: Oracle, k: Block, tr: seq<Event>)
    requires InElse(x)
    ensures var a := Ask(o, x.op.tag.test.c, tr);
            Steps(q, o, State(Run(Cons(x.m, k)), tr), 2 + a.steps) == AfterMerged(x, a, k)
  {
    var s, c, d := State(Run(Cons(x.m, k)), tr), x.op.tag.test.c, x.m.tag.test.c.r;
    var t, f := Run(App(x.other, k)), Run(App(x.andThen, k));
    assert Nth(x.m.rs, 1) == x.andThen by { assert Nth(x.m.rs, 1) == Nth(x.m.rs.rest, 0); }
    assert Pick(x.m.rs, 0) == x.other && Pick(x.m.rs, 1) == x.andThen;
    OneStep(q, o, s);
    var s1 := State(Eval(And(c, d), t, f), tr);
    assert Step(q, o, s) == s1;
    OneStep(q, o, s1);
    assert Step(q, o, s1) == State(Eval(c, Eval(d, t, f), f), tr);
    StepsAdd(q, o, s, 1, 1);
    AskSteps(q, o, c, Eval(d, t, f), f, tr);
    StepsAdd(q, o, s, 2, Ask(o, c, tr).steps);
  }

  lemma AskedSteps(x: Case, q: Block, o: Oracle, t: Config, f: Config, tr: seq<Event>)
    requires InElse(x)
    ensures exists n: nat :: Steps(q, o, State(Eval(x.m.tag.test.c.r, t, f), tr), n).tr == tr + [Asked(x.y, o(tr, x.y))]
  {
    var d := x.m.tag.test.c.r;
    AskSteps(q, o, d, t, f, tr);
    assert Ask(o, d, tr).tr == tr + [Asked(x.y, o(tr, x.y))];
  }

  /** Without an atom before it, the outer condition always has the value that it had. */
  lemma ElseGuarded(x: Case, o: Oracle, tr: seq<Event>)
    requires InElse(x)
    ensures Ask(o, x.op.tag.test.c, tr).v ==> Guarded(x.y, x.op)
    ensures !Ask(o, x.op.tag.test.c, tr).v ==> Guarded(x.y, x.m)
  {
    var c := x.op.tag.test.c;
    ElseFree(x);
    FirstValue(o, c, tr);
    FirstFree(x.y, c);
    assert Nth(x.m.rs, 1) == x.andThen by { assert Nth(x.m.rs, 1) == Nth(x.m.rs.rest, 0); }
  }

  lemma ForkOuter(x: Case, p: Block, o: Oracle, n: nat, k: Block)
    requires InElse(x) && Exec(p, o, n).c == Run(Cons(x.op, k))
    ensures var a := Ask(o, x.op.tag.test.c, Exec(p, o, n).tr); Exec(p, o, n + (1 + a.steps)) == AfterOuter(x, a, k)
  {
    var s := Exec(p, o, n);
    OuterSteps(x, p, o, k, s.tr);
    ExecSteps(p, o, n, 1 + Ask(o, x.op.tag.test.c, s.tr).steps);
  }

  lemma ForkMerged(x: Case, p: Block, o: Oracle, n: nat, k: Block)
    requires InElse(x) && Exec(p, o, n).c == Run(Cons(x.op, k))
    requires forall i: nat :: i < n ==> !At(Exec(p, o, i).c, x.op)
    ensures var a := Ask(o, x.op.tag.test.c, Exec(p, o, n).tr);
            Exec(Sub(x.op, x.m, p), o, n + (2 + a.steps)) == AfterMerged(x, a, Sub(x.op, x.m, k))
  {
    var q, s := Sub(x.op, x.m, p), Exec(p, o, n);
    ElseLabels(x);
    ExecSub(x.op, x.m, p, o, n);
    SubCons(x.op, x.m, x.op, k);
    MergedSteps(x, q, o, Sub(x.op, x.m, k), s.tr);
    ExecSteps(q, o, n, 2 + Ask(o, x.op.tag.test.c, s.tr).steps);
  }

  /** From the first time on at which the statement is reached, one of the two runs asks `y` next and the other
      does not. */
  lemma Parts(x: Case, p: Block, o: Oracle, n: nat)
    requires InElse(x) && Free(x.y, x.op, p) && At(Exec(p, o, n).c, x.op)
    requires forall i: nat :: i < n ==> !At(Exec(p, o, i).c, x.op)
    ensures !Equivalent(p, Sub(x.op, x.m, p))
  {
    var k := Exec(p, o, n).c.b.tl;
    var a := Ask(o, x.op.tag.test.c, Exec(p, o, n).tr);
    ForkOuter(x, p, o, n, k);
    ForkMerged(x, p, o, n, k);
    PartsFree(x, p, o, n, k);
    ElseGuarded(x, o, Exec(p, o, n).tr);
    Branching(x, p, Sub(x.op, x.m, p), o, n + (1 + a.steps), n + (2 + a.steps), k, Sub(x.op, x.m, k), a);
  }

  lemma Branching(x: Case, p: Block, q: Block, o: Oracle, i: nat, j: nat, k: Block, l: Block, a: Outcome)
    requires InElse(x) && LabelsFree(x.y, x.op) && Free(x.y, x.op, p) && Free(x.y, x.op, k)
    requires LabelsFree(x.y, x.m) && Free(x.y, x.m, q) && Free(x.y, x.m, l) && Free(x.y, x.m, x.andThen)
    requires if a.v then Guarded(x.y, x.op) else Guarded(x.y, x.m)
    requires Exec(p, o, i) == AfterOuter(x, a, k) && Exec(q, o, j) == AfterMerged(x, a, l)
    ensures !Equivalent(p, q)
  {
    if a.v { PartsTrue(x, p, q, o, i, j, k, l, a.tr); } else { PartsFalse(x, p, q, o, i, j, k, l, a.tr); }
  }

  lemma PartsFree(x: Case, p: Block, o: Oracle, n: nat, k: Block)
    requires InElse(x) && Free(x.y, x.op, p) && Exec(p, o, n).c == Run(Cons(x.op, k))
    requires forall i: nat :: i < n ==> !At(Exec(p, o, i).c, x.op)
    ensures Free(x.y, x.op, k) && Free(x.y, x.m, Sub(x.op, x.m, p)) && Free(x.y, x.m, Sub(x.op, x.m, k))
    ensures Free(x.y, x.m, x.andThen) && LabelsFree(x.y, x.op) && LabelsFree(x.y, x.m)
  {
    ElseFree(x);
    ExecFree(x.y, x.op, p, o, n);
    SubFree(x.y, x.op, x.m, p);
    SubFree(x.y, x.op, x.m, k);
  }

  lemma PartsTrue(x: Case, p: Block, q: Block, o: Oracle, i: nat, j: nat, k: Block, l: Block, tr: seq<Event>)
    requires InElse(x) && LabelsFree(x.y, x.op) && Guarded(x.y, x.op) && Free(x.y, x.op, p) && Free(x.y, x.op, k)
    requires Exec(p, o, i) == State(Run(App(x.other, k)), tr)
    requires Exec(q, o, j) == State(Eval(x.m.tag.test.c.r, Run(App(x.other, l)), Run(App(x.andThen, l))), tr)
    ensures !Equivalent(p, q)
  {
    var e := Asked(x.y, o(tr, x.y));
    FreeApp(x.y, x.op, x.other, k);
    NotShown(x.y, x.op, p, o, i, e);
    AskedSteps(x, q, o, Run(App(x.other, l)), Run(App(x.andThen, l)), tr);
    var n: nat :| Steps(q, o, Exec(q, o, j), n).tr == tr + [e];
    ExecSteps(q, o, j, n);
    assert Shows(q, o, tr + [e]);
  }

  lemma PartsFalse(x: Case, p: Block, q: Block, o: Oracle, i: nat, j: nat, k: Block, l: Block, tr: seq<Event>)
    requires InElse(x) && LabelsFree(x.y, x.m) && Guarded(x.y, x.m) && Free(x.y, x.m, q) && Free(x.y, x.m, l)
    requires Free(x.y, x.m, x.andThen)
    requires Exec(p, o, i) == State(Run(Cons(x.inner, k)), tr)
    requires Exec(q, o, j) == State(Run(App(x.andThen, l)), tr)
    ensures !Equivalent(p, q)
  {
    var e := Asked(x.y, o(tr, x.y));
    FreeApp(x.y, x.m, x.andThen, l);
    NotShown(x.y, x.m, q, o, j, e);
    InnerSteps(x, p, o, k, tr);
    ExecSteps(p, o, i, 2);
    assert Shows(p, o, tr + [e]);
  }

  // ----- the exact condition -----

  /** The regions that the pattern looks at, when it is in an else-region. */
  lemma ElseCase(p: Block, id: nat, inner: Stmt, innerElse: bool, y: nat) returns (x: Case)
    requires WF(p) && HasBranch(p, id) && Nests(Op(p, id), inner, true, innerElse)
    requires AsksAlone(p, Op(p, id), true, inner, y)
    ensures InElse(x) && x.op == Op(p, id) && x.m == Merged(Op(p, id), inner, true, innerElse) && x.y == y
  {
    var op := Op(p, id);
    var other, andThen, opposite := op.rs.b, Regions2(inner, innerElse).0, Regions2(inner, innerElse).1;
    SeekFacts(id, p);
    OpsTwo(other, Single(inner));
    OpsTwo(inner.rs.b, inner.rs.rest.b);
    PlainTwo(other, Single(inner));
    PlainTwo(inner.rs.b, inner.rs.rest.b);
    assert inner.rs == More(inner.rs.b, One(inner.rs.rest.b)) && op.rs == More(other, One(Single(inner)));
    assert Ops(Single(inner)) == OpsOf(inner) + Ops(Nil);
    assert Free(y, op, inner.rs.b) && FreeIn(y, op, inner.rs.rest) && Free(y, op, inner.rs.rest.b);
    if opposite.Cons? { JumpAlone(opposite.hd); }
    x := Case(op, Merged(op, inner, true, innerElse), inner, y, id, other, andThen, opposite);
  }

  /** Merging two nested ifs by a conjunction preserves behaviours exactly when the inner one is in the
      then-region of the outer one: here for an inner condition that nothing else asks, and an outer if
      that some run reaches. */
  lemma CombiningExact(p: Block, id: nat, inner: Stmt, outerElse: bool, innerElse: bool, y: nat)
    requires WF(p) && HasBranch(p, id) && Nests(Op(p, id), inner, outerElse, innerElse)
    requires AsksAlone(p, Op(p, id), outerElse, inner, y) && Reached(p, Op(p, id))
    ensures Equivalent(p, Put(id, Single(Merged(Op(p, id), inner, outerElse, innerElse)), p)) <==> !outerElse
  {
    if outerElse {
      var x := ElseCase(p, id, inner, innerElse, y);
      var o: Oracle, n: nat :| At(Exec(p, o, n).c, x.op);
      var k := FirstTime(x.op, p, o, n);
      Parts(x, p, o, k);
      SubPut(x.op, x.m, id, p);
    } else {
      IfAndCombining(p, id, inner, innerElse);
    }
  }

  /** An if in the else-region of another. */
  const Inside: Stmt := Nest(Branch(1, If(Atom(1))), More(Single(Act(7)), One(Nil)))

  const Outside: Stmt := Nest(Branch(0, If(Atom(0))), More(Nil, One(Single(Inside))))

  /** With both conditions false the first program ends after asking them; the second one acts. */
  lemma InElseDiffers()
    ensures Nests(Outside, Inside, true, false) && HasBranch(Single(Outside), 0) && WF(Single(Outside))
    ensures !Equivalent(Single(Outside), Put(0, Single(Merged(Outside, Inside, true, false)), Single(Outside)))
  {
    var p, o: Oracle := Single(Outside), (tr: seq<Event>, x: nat) => 0;
    var acts := Single(Act(7));
    assert Seek(0, p) == Some(p);
    assert Labels(acts) == {} && Ops(acts) == {} && Targets(acts) == {} && Plain(acts) && DistinctOps(acts)
        && Distinct(acts);
    NestSets(Inside.tag, Inside.rs, Nil);
    OpsTwo(acts, Nil);
    FindTwo(0, acts, Nil, Nil);
    assert PlainIn(Inside.rs) && DistinctIn(Inside.rs) && Distinct(Single(Inside));
    NestSets(Outside.tag, Outside.rs, Nil);
    OpsTwo(Nil, Single(Inside));
    FindTwo(0, Nil, Single(Inside), Nil);
    assert PlainIn(Outside.rs) && DistinctIn(Outside.rs) && Distinct(p);
    assert Free(1, Outside, p) && Free(1, Outside, acts) && FreeIn(1, Outside, Inside.rs);
    assert At(Exec(p, o, 0).c, Outside);
    CombiningExact(p, 0, Inside, true, false, 1);
  }
}
