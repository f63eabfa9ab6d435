/** Names of jumps only tell them apart: numbering them anew changes nothing else. */
module JumpNames {
  import opened Wrappers
  import opened Clift
  import opened Behaviours
  import opened Static
  import opened Conditions
  import opened WellFormed
  import opened JumpLaws

  // ----- programs without names -----

  /** The block with the names of its jumps forgotten. */
  function Bare(b: Block): Block {
    match b case Nil => Nil case Cons(a, s) => Cons(BareStmt(a), Bare(s))
  }

  function BareStmt(a: Stmt): Stmt {
    match a
    case Jump(_, kind, l) => Jump(0, kind, l)
    case Nest(tag, rs) => Nest(tag, BareIn(rs))
    case Again(loop) => Again(BareStmt(loop))
    case _ => a
  }

  function BareIn(rs: Regions): Regions {
    match rs case One(b) => One(Bare(b)) case More(b, r) => More(Bare(b), BareIn(r))
  }

  lemma {:induction false} BareApp(x: Block, y: Block)
    ensures Bare(App(x, y)) == App(Bare(x), Bare(y))
  {
    if x.Cons? { BareApp(x.tl, y); }
  }

  lemma {:induction false} BareNth(rs: Regions, i: nat)
    ensures Count(BareIn(rs)) == Count(rs)
    ensures i < Count(rs) ==> Nth(BareIn(rs), i) == Bare(Nth(rs, i))
  {
    if rs.More? { BareNth(rs.rest, if i > 0 then i - 1 else 0); }
  }

  lemma BarePick(rs: Regions, i: nat, k: Block)
    ensures App(Pick(BareIn(rs), i), Bare(k)) == Bare(App(Pick(rs, i), k))
  {
    BareNth(rs, i);
    BareNth(rs, 0);
    BareApp(Pick(rs, i), k);
  }

  function BareOption(f: Option<Block>): Option<Block> { if f.Some? then Some(Bare(f.value)) else None }

  lemma BareInner(a: Stmt, k: Block)
    requires a.Nest?
    ensures Inner(BareStmt(a), Bare(k)) == Bare(Inner(a, k))
  {}

  lemma {:induction false} FindBare(l: nat, b: Block, k: Block)
    ensures Find(l, Bare(b), Bare(k)) == BareOption(Find(l, b, k))
  {
    match b
    case Nil =>
    case Cons(a, s) =>
      BareApp(b, k);
      BareApp(s, k);
      FindBare(l, s, k);
      if a.Nest? {
        BareInner(a, App(s, k));
        FindBareIn(l, a.rs, Inner(a, App(s, k)));
      }
  }

  lemma {:induction false} FindBareIn(l: nat, rs: Regions, k: Block)
    ensures FindIn(l, BareIn(rs), Bare(k)) == BareOption(FindIn(l, rs, k))
  {
    FindBare(l, rs.b, k);
    if rs.More? { FindBareIn(l, rs.rest, k); }
  }

  // ----- runs -----

  function BareConfig(c: Config): Config {
    match c case Run(b) => Run(Bare(b)) case Eval(d, t, f) => Eval(d, BareConfig(t), BareConfig(f))
  }

  lemma BareCons(a: Stmt, k: Block)
    ensures Bare(Cons(a, k)) == Cons(BareStmt(a), Bare(k))
  {}

  lemma BareQuiet(p: Block, c: Config)
    ensures var x, y := Quiet(p, c), Quiet(Bare(p), BareConfig(c));
            x.Some? == y.Some? && (x.Some? ==> y.value == BareConfig(x.value))
  {
    if c.Run? && c.b.Cons? {
      var Cons(a, k) := c.b;
      BareCons(a, k);
      match a
      case Jump(_, _, l) => FindBare(l, p, Nil);
      case Nest(_, _) => BareQuietNest(p, a, k);
      case Again(d) => BareCons(d, k); assert BareStmt(a) == Again(BareStmt(d));
      case _ => assert BareStmt(a) == a;
    }
  }

  lemma BareQuietNest(p: Block, a: Stmt, k: Block)
    requires a.Nest?
    ensures var x, y := Quiet(p, Run(Cons(a, k))), Quiet(Bare(p), Run(Cons(Nest(a.tag, BareIn(a.rs)), Bare(k))));
            x.Some? == y.Some? && (x.Some? ==> y.value == BareConfig(x.value))
  {
    BareNth(a.rs, 0);
    match a.tag
    case Scope => BareApp(Nth(a.rs, 0), k);
    case Branch(_, If(_)) => BarePick(a.rs, 0, k); BarePick(a.rs, 1, k);
    case Branch(_, Switch(_)) =>
    case While(_, _, _, _) => BareApp(Nth(a.rs, 0), Cons(a, k));
    case DoWhile(_, _, _, _) =>
      BareCons(Again(a), k);
      assert BareStmt(Again(a)) == Again(BareStmt(a));
      BareApp(Nth(a.rs, 0), Cons(Again(a), k));
  }

  lemma BareStep(p: Block, o: Oracle, s: State)
    ensures Step(Bare(p), o, State(BareConfig(s.c), s.tr)) == State(BareConfig(Step(p, o, s).c), Step(p, o, s).tr)
  {
    BareQuiet(p, s.c);
    if s.c.Run? && s.c.b.Cons? {
      var Cons(a, k) := s.c.b;
      BareCons(a, k);
      if a.Nest? && a.tag.Branch? && a.tag.test.Switch? {
        assert BareStmt(a) == Nest(a.tag, BareIn(a.rs));
        BarePick(a.rs, o(s.tr, a.tag.test.x), k);
      } else if a.Act? || a.Halt? {
        assert BareStmt(a) == a;
      }
    }
  }

  lemma {:induction false} BareExec(p: Block, o: Oracle, n: nat)
    ensures Exec(Bare(p), o, n) == State(BareConfig(Exec(p, o, n).c), Exec(p, o, n).tr)
  {
    if n > 0 {
      BareExec(p, o, n - 1);
      BareStep(p, o, Exec(p, o, n - 1));
    }
  }

  lemma BareEquivalent(p: Block)
    ensures Equivalent(p, Bare(p))
  {
    forall o: Oracle ensures Follows(p, Bare(p), o) {
      forall n: nat
        ensures Shows(Bare(p), o, Exec(p, o, n).tr)
        ensures Exec(p, o, n).c == End ==> Ends(Bare(p), o, Exec(p, o, n).tr)
      {
        BareExec(p, o, n);
        assert Exec(Bare(p), o, n).tr == Exec(p, o, n).tr;
      }
      forall n: nat | Silent(p, o, n) ensures Hangs(Bare(p), o, Exec(p, o, n).tr) { BareSilent(p, o, n); }
    }
    Sound(p, Bare(p));
  }

  lemma BareSilent(p: Block, o: Oracle, n: nat)
    requires Silent(p, o, n)
    ensures Hangs(Bare(p), o, Exec(p, o, n).tr)
  {
    BareExec(p, o, n);
    forall m: nat | n <= m ensures Exec(Bare(p), o, m).tr == Exec(Bare(p), o, n).tr && Exec(Bare(p), o, m).c != End {
      BareExec(p, o, m);
    }
    assert Silent(Bare(p), o, n);
  }

  /** Two programs that differ in the names of jumps only have the same behaviours. */
  lemma AlikeEquivalent(p: Block, q: Block)
    requires Bare(p) == Bare(q)
    ensures Equivalent(p, q)
  {
    BareEquivalent(p);
    BareEquivalent(q);
  }

  // ----- form -----

  lemma {:induction false} BareForm(b: Block)
    ensures var c := Bare(b);
            && Labels(c) == Labels(b) && Ops(c) == Ops(b) && Targets(c) == Targets(b)
            && Plain(c) == Plain(b) && Distinct(c) == Distinct(b) && DistinctOps(c) == DistinctOps(b)
  {
    if b.Cons? {
      BareForm(b.tl);
      BareFormOf(b.hd);
    }
  }

  lemma {:induction false} BareFormOf(a: Stmt)
    ensures var c := BareStmt(a);
            && LabelsOf(c) == LabelsOf(a) && OpsOf(c) == OpsOf(a) && TargetsOf(c) == TargetsOf(a)
            && DistinctOf(c) == DistinctOf(a) && DistinctOpsOf(c) == DistinctOpsOf(a)
            && c.Again? == a.Again? && c.Nest? == a.Nest? && (a.Nest? ==> PlainIn(c.rs) == PlainIn(a.rs))
  {
    if a.Nest? { BareFormIn(a.rs); }
  }

  lemma {:induction false} BareFormIn(rs: Regions)
    ensures var c := BareIn(rs);
            && LabelsIn(c) == LabelsIn(rs) && OpsIn(c) == OpsIn(rs) && TargetsIn(c) == TargetsIn(rs)
            && PlainIn(c) == PlainIn(rs) && DistinctIn(c) == DistinctIn(rs) && DistinctOpsIn(c) == DistinctOpsIn(rs)
  {
    BareForm(rs.b);
    if rs.More? { BareFormIn(rs.rest); }
  }

  // ----- numbering -----

  function JumpCount(b: Block): nat {
    match b case Nil => 0 case Cons(a, s) => JumpCountOf(a) + JumpCount(s)
  }

  function JumpCountOf(a: Stmt): nat {
    match a case Jump(_, _, _) => 1 case Nest(_, rs) => JumpCountIn(rs) case _ => 0
  }

  function JumpCountIn(rs: Regions): nat {
    match rs case One(b) => JumpCount(b) case More(b, r) => JumpCount(b) + JumpCountIn(r)
  }

  /** The jumps numbered in textual order, from `n` on. */
  function Numbered(n: nat, b: Block): Block
    decreases b
  {
    match b case Nil => Nil case Cons(a, s) => Cons(NumberedStmt(n, a), Numbered(n + JumpCountOf(a), s))
  }

  function NumberedStmt(n: nat, a: Stmt): Stmt
    decreases a
  {
    match a
    case Jump(_, kind, l) => Jump(n, kind, l)
    case Nest(tag, rs) => Nest(tag, NumberedIn(n, rs))
    case _ => a
  }

  function NumberedIn(n: nat, rs: Regions): Regions
    decreases rs
  {
    match rs
    case One(b) => One(Numbered(n, b))
    case More(b, r) => More(Numbered(n, b), NumberedIn(n + JumpCount(b), r))
  }

  lemma {:induction false} NumberedBare(n: nat, b: Block)
    ensures Bare(Numbered(n, b)) == Bare(b)
    decreases b
  {
    if b.Cons? {
      NumberedBare(n + JumpCountOf(b.hd), b.tl);
      if b.hd.Nest? { NumberedBareIn(n, b.hd.rs); }
    }
  }

  lemma {:induction false} NumberedBareIn(n: nat, rs: Regions)
    ensures BareIn(NumberedIn(n, rs)) == BareIn(rs)
    decreases rs
  {
    NumberedBare(n, rs.b);
    if rs.More? { NumberedBareIn(n + JumpCount(rs.b), rs.rest); }
  }

  predicate Within(names: set<nat>, n: nat, m: nat) { forall i :: i in names ==> n <= i < m }

  lemma {:induction false} NumberedNames(n: nat, b: Block)
    ensures var c := Numbered(n, b); DistinctNames(c) && Within(Names(c), n, n + JumpCount(b))
    decreases b
  {
    if b.Cons? {
      NumberedNames(n + JumpCountOf(b.hd), b.tl);
      if b.hd.Nest? { NumberedNamesIn(n, b.hd.rs); }
      assert Within(NamesOf(NumberedStmt(n, b.hd)), n, n + JumpCountOf(b.hd));
    }
  }

  lemma {:induction false} NumberedNamesIn(n: nat, rs: Regions)
    ensures var c := NumberedIn(n, rs); DistinctNamesIn(c) && Within(NamesIn(c), n, n + JumpCountIn(rs))
    decreases rs
  {
    NumberedNames(n, rs.b);
    if rs.More? { NumberedNamesIn(n + JumpCount(rs.b), rs.rest); }
  }

  /** Numbering a well-formed program keeps it well formed, with the same behaviours and distinct names. */
  lemma NumberedKeeps(p: Block)
    requires WF(p)
    ensures var q := Numbered(0, p); WF(q) && DistinctNames(q) && Equivalent(p, q)
  {
    var q := Numbered(0, p);
    NumberedBare(0, p);
    NumberedNames(0, p);
    BareForm(p);
    BareForm(q);
    AlikeEquivalent(p, q);
  }
}
