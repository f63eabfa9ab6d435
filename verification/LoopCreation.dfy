/** Creating one loop from the gotos that jump back to a label. */
module LoopCreation {
  import opened Wrappers
  import opened Clift
  import opened Behaviours
  import opened Static
  import opened Rules
  import opened Conditions
  import opened LabelLaws
  import opened Preserve
  import opened Places
  import opened Preservation
  import opened WellFormed
  import opened KeepForm
  import opened Branches
  import opened Positions
  import opened JumpLaws
  import opened NewLoop
  import opened OpenGotos

  // ----- programs on which the pass works -----

  /** Well formed, every jump with its own name. */
  predicate Proper(p: Block) { WF(p) && DistinctNames(p) }

  /** `q` behaves like `p`, assigns the same labels in the same order and has no new goto; the code
      behind a label outside `hit` keeps its gotos to that label, and no goto comes to stand behind a
      label outside loops. */
  ghost predicate Kept(p: Block, q: Block, hit: set<nat>) {
    && Equivalent(p, q) && Proper(q) && Order(q) == Order(p) && Gotos(q) <= Gotos(p)
    && Shrinks(p, q)
    && forall l: nat, id: nat :: StaysBehind(p, q, hit, l, id)
  }

  predicate StaysBehind(p: Block, q: Block, hit: set<nat>, l: nat, id: nat) {
    l !in hit && GotoBehind(p, l, id) ==> GotoBehind(q, l, id)
  }

  /** The goto `id` to label `l` stands behind it. */
  predicate GotoBehind(p: Block, l: nat, id: nat) {
    Tail(l, p).Some? && (id, l) in Gotos(Tail(l, p).value)
  }

  lemma {:induction false} KeptSelf(p: Block)
    requires Proper(p)
    ensures Kept(p, p, {})
  {
    forall l: nat ensures ShrinksAt(p, p, l) {}
    forall l: nat, id: nat ensures StaysBehind(p, p, {}, l, id) {}
  }

  lemma {:induction false} KeptThen(p: Block, q: Block, r: Block, hit: set<nat>, hit2: set<nat>)
    requires Kept(p, q, hit) && Kept(q, r, hit2)
    ensures Kept(p, r, hit + hit2)
  {
    Transitive(p, q, r);
    ShrinksThen(p, q, r);
    forall l: nat, id: nat
      ensures StaysBehind(p, r, hit + hit2, l, id)
    {
      assert StaysBehind(p, q, hit, l, id) && StaysBehind(q, r, hit2, l, id);
    }
  }

  // ----- gotos by name -----

  lemma {:induction false} GotoAt(id: nat, l: nat, b: Block, k: Block) returns (s: Block)
    requires (id, l) in Gotos(b)
    ensures IsCont(Cons(Jump(id, Goto, l), s), b, k)
  {
    var Cons(a, t) := b;
    Unfold(a, t);
    if a == Jump(id, Goto, l) {
      s := App(t, k);
    } else if (id, l) in Gotos(t) {
      s := GotoAt(id, l, t, k);
    } else {
      s := GotoAtIn(id, l, a.rs, Inner(a, App(t, k)));
    }
  }

  lemma {:induction false} GotoAtIn(id: nat, l: nat, rs: Regions, k: Block) returns (s: Block)
    requires (id, l) in GotosIn(rs)
    ensures IsContIn(Cons(Jump(id, Goto, l), s), rs, k)
  {
    if (id, l) in Gotos(rs.b) { s := GotoAt(id, l, rs.b, k); } else { s := GotoAtIn(id, l, rs.rest, k); }
  }

  /** The name of a goto determines the jump. */
  lemma {:induction false} GotoOnly(p: Block, id: nat, l: nat, a: Stmt, s: Block)
    requires DistinctNames(p) && (id, l) in Gotos(p) && IsCont(Cons(a, s), p, Nil) && a.Jump? && a.id == id
    ensures a == Jump(id, Goto, l)
  {
    var t := GotoAt(id, l, p, Nil);
    JumpOnce(Jump(id, Goto, l), t, a, s, p, Nil);
  }

  lemma {:induction false} GotoUnique(p: Block, id: nat, l: nat, m: nat)
    requires DistinctNames(p) && (id, l) in Gotos(p) && (id, m) in Gotos(p)
    ensures l == m
  {
    var s := GotoAt(id, m, p, Nil);
    GotoOnly(p, id, l, Jump(id, Goto, m), s);
  }

  // ----- redirecting and erasing gotos -----

  /** The two labels lead to the same statement. */
  ghost predicate SameTarget(p: Block, x: nat, y: nat) {
    SkipLabels(Target(p, x)) == SkipLabels(Target(p, y))
  }

  lemma {:induction false} SkipApply(r: Rule, x: Block)
    requires r.Jumps?
    ensures SkipLabels(Apply(r, x)) == SkipLabels(Apply(r, SkipLabels(x)))
  {
    if x.Cons? && x.hd.Label? { SkipApply(r, x.tl); }
  }

  lemma {:induction false} SameKept(r: Rule, p: Block, x: nat, y: nat)
    requires r.Jumps? && SameTarget(p, x, y)
    ensures SameTarget(Apply(r, p), x, y)
  {
    JumpsTarget(r, p, x);
    JumpsTarget(r, p, y);
    SkipApply(r, Target(p, x));
    SkipApply(r, Target(p, y));
  }

  /** Common part: all names of the rule are gotos to `l`. */
  lemma {:induction false} JumpsKept(r: Rule, p: Block, l: nat)
    requires NoNewGoto(r) && Proper(p) && Redirected(r) <= Labels(p) && Equivalent(p, Apply(r, p))
    requires forall id :: id in r.fate ==> (id, l) in Gotos(p)
    ensures Kept(p, Apply(r, p), {l})
  {
    var q := Apply(r, p);
    JumpsKeeps(r, p);
    JumpsShape(r, p);
    JumpsShrink(r, p);
    forall m: nat, id: nat
      ensures StaysBehind(p, q, {l}, m, id)
    {
      if m != l && GotoBehind(p, m, id) {
        TailFacts(m, p);
        if id in r.fate { GotoUnique(p, id, l, m); }
        JumpsTail(r, m, p);
        JumpsShape(r, Tail(m, p).value);
      }
    }
  }

  function RedirectAll(names: set<nat>, kind: JumpKind, l: nat): Rule {
    Jumps(map id | id in names :: Retarget(kind, l))
  }

  lemma {:induction false} Redirect(p: Block, names: set<nat>, l: nat, kind: JumpKind, new_: nat)
    requires Proper(p) && kind != Goto && new_ in Labels(p) && SameTarget(p, l, new_)
    requires forall id :: id in names ==> (id, l) in Gotos(p)
    ensures var q := Apply(RedirectAll(names, kind, new_), p);
            Kept(p, q, {l}) && Gotos(q) == (set pr | pr in Gotos(p) && pr.0 !in names) && Labels(q) == Labels(p)
  {
    var r := RedirectAll(names, kind, new_);
    forall a: Stmt, s: Block
      ensures SaneHere(r, p, a, s, p, Nil)
    {
      if a.Jump? && IsCont(Cons(a, s), p, Nil) {
        TargetsAt(a, s, p, Nil);
        if a.id in names { GotoOnly(p, a.id, l, a, s); }
      }
    }
    SaneFromAt(r, p, p, Nil);
    JumpsOk(r, p);
    RulePreserves(r, p);
    JumpsKept(r, p, l);
    JumpsShape(r, p);
    JumpsForm(r, p);
  }

  function EraseOne(id: nat): Rule { Jumps(map[id := Erase]) }

  /** A goto whose own continuation is where it leads. */
  lemma {:induction false} EraseGoto(p: Block, id: nat, l: nat, s: Block)
    requires Proper(p) && IsCont(Cons(Jump(id, Goto, l), s), p, Nil) && (id, l) in Gotos(p)
    requires SkipLabels(s) == SkipLabels(Target(p, l))
    ensures var q := Apply(EraseOne(id), p);
            Kept(p, q, {l}) && Gotos(q) == (set pr | pr in Gotos(p) && pr.0 != id) && Labels(q) == Labels(p)
  {
    var r := EraseOne(id);
    forall a: Stmt, t: Block
      ensures SaneHere(r, p, a, t, p, Nil)
    {
      if a.Jump? && IsCont(Cons(a, t), p, Nil) {
        TargetsAt(a, t, p, Nil);
        if a.id == id { JumpOnce(Jump(id, Goto, l), s, a, t, p, Nil); }
      }
    }
    SaneFromAt(r, p, p, Nil);
    JumpsOk(r, p);
    RulePreserves(r, p);
    JumpsKept(r, p, l);
    JumpsShape(r, p);
    JumpsForm(r, p);
    assert (set pr | pr in Gotos(p) && pr.0 !in r.fate) == (set pr | pr in Gotos(p) && pr.0 != id);
  }

  // ----- the new loop -----

  /** The number of statements up to the last one that holds a goto in `names`. */
  function Bound(names: set<nat>, s: Block): (n: nat)
    ensures n <= Len(s)
    ensures n > 0 ==> NamesOf(NthStmt(s, n - 1)) * names != {}
    ensures Names(s) * names != {} ==> n > 0
    ensures Names(Drop(n, s)) !! names
  {
    match s
    case Nil => 0
    case Cons(a, t) =>
      var m := Bound(names, t);
      if m > 0 then m + 1 else if NamesOf(a) * names != {} then 1 else 0
  }

  /** Numbers below `next` are in use. */
  predicate Below(p: Block, next: nat) {
    && (forall l :: l in Labels(p) ==> l < next) && (forall i :: i in Ops(p) ==> i < next)
    && (forall i :: i in Names(p) ==> i < next)
  }

  lemma {:induction false} SuffixAt(x: Block, y: Block, p: Block)
    requires IsCont(App(x, y), p, Nil) && y != Nil
    ensures IsCont(y, p, Nil)
  {
    if x.Cons? {
      TailAt(x.hd, App(x.tl, y), p, Nil);
      assert App(x.tl, y) != Nil;
      SuffixAt(x.tl, y, p);
    }
  }

  /** The facts about the program right after the loop was built. */
  ghost predicate Built(g: Block, g1: Block, r: Rule, s: Block, k: Block) {
    && r.Enloop? && r.tag.While? && Proper(g1) && Tail(r.l, g) == Some(s)
    && IsCont(Cons(Label(r.l), Cons(LoopOf(r, s), App(Drop(r.n, s), k))), g1, Nil)
    && Target(g1, r.l) == Cons(Label(r.l), Cons(LoopOf(r, s), App(Drop(r.n, s), k)))
    && IsCont(Cons(LoopOf(r, s), App(Drop(r.n, s), k)), g1, Nil)
    && (r.tag.cont.Some? ==> r.tag.cont.value in Labels(g1) && SameTarget(g1, r.l, r.tag.cont.value))
    && (r.tag.brk.Some? ==> r.tag.brk.value in Labels(g1) && Target(g1, r.tag.brk.value) == App(Drop(r.n, s), k))
  }

  lemma {:induction false} BuildLoop(g: Block, r: Rule, s: Block) returns (k: Block)
    requires Proper(g) && r.Enloop? && Tail(r.l, g) == Some(s) && SiteOk(r, Label(r.l), s) && FreshFor(r, g)
    requires r.tag.id !in Ops(g) && LeavesByBreak(r)
    ensures var g1 := Apply(r, g);
            && Kept(g, g1, {r.l} + Labels(s)) && Gotos(g1) == Gotos(g) && Built(g, g1, r, s, k)
            && Labels(g1) <= Labels(g) + TagLabels(r.tag) && Names(g1) <= Names(g) + LeaveNames(r)
            && Ops(g1) <= Ops(g) + {r.tag.id}
  {
    var g1 := Apply(r, g);
    EnloopOk(r, g);
    SaneSets(r, g, g, Nil);
    RulePreserves(r, g);
    PlainApply(r, g);
    DistinctApply(r, g);
    EnloopGrown(r, g);
    LabelsKept(r, g);
    LabelsApply(r, g);
    EnloopShrinksAll(r, g);
    k := EnloopAt(r, g, Nil);
    BuiltFrom(g, g1, r, s, k);
    BuiltKept(g, r, s);
  }

  /** Everything about targets follows from the position of the loop. */
  lemma {:induction false} BuiltFrom(g: Block, g1: Block, r: Rule, s: Block, k: Block)
    requires r.Enloop? && r.tag.While? && Tail(r.l, g) == Some(s) && Plain(g1) && Distinct(g1) && DistinctOps(g1)
    requires DistinctNames(g1)
    requires r.tag.brk.Some? ==> r.tag.brk != r.tag.cont
    requires IsCont(Cons(Label(r.l), Cons(LoopOf(r, s), App(Drop(r.n, s), k))), g1, Nil)
    requires Targets(g1) <= Labels(g1)
        || (Targets(g1) <= Labels(g) + LeaveTargets(r) && Labels(g) <= Labels(g1)
            && LeaveTargets(r) <= OptSet(r.tag.brk))
    ensures Built(g, g1, r, s, k)
  {
    var loop, rest := LoopOf(r, s), App(Drop(r.n, s), k);
    FindHere(r.l, Label(r.l), Cons(loop, rest), Cons(Label(r.l), Cons(loop, rest)), g1, Nil);
    TailAt(Label(r.l), Cons(loop, rest), g1, Nil);
    LabelsAt(loop, rest, g1, Nil);
    if r.tag.cont.Some? { FindHere(r.tag.cont.value, loop, rest, Cons(loop, rest), g1, Nil); }
    if r.tag.brk.Some? { FindHere(r.tag.brk.value, loop, rest, rest, g1, Nil); }
  }

  lemma {:induction false} BuiltKept(g: Block, r: Rule, s: Block)
    requires Proper(g) && r.Enloop? && Tail(r.l, g) == Some(s) && SiteOk(r, Label(r.l), s) && FreshFor(r, g) && Ok(r, g)
    requires LeavesByBreak(r)
    ensures forall l: nat, id: nat :: StaysBehind(g, Apply(r, g), {r.l} + Labels(s), l, id)
  {
    forall l: nat, id: nat
      ensures StaysBehind(g, Apply(r, g), {r.l} + Labels(s), l, id)
    {
      if l !in {r.l} + Labels(s) && GotoBehind(g, l, id) {
        TailOrder(l, g);
        EnloopTail(r, l, g);
        TailFacts(l, g);
        OkTail(r, l, g);
        EnloopGrown(r, Tail(l, g).value);
      }
    }
  }

  lemma {:induction false} OkTail(r: Rule, l: nat, b: Block)
    requires Ok(r, b) && Tail(l, b).Some? && r.Enloop?
    ensures Ok(r, Tail(l, b).value)
  {
    if b.hd == Label(l) {
    } else if b.hd.Nest? && TailIn(l, b.hd.rs).Some? {
      OkTailIn(r, l, b.hd.rs);
    } else {
      OkTail(r, l, b.tl);
    }
  }

  lemma {:induction false} OkTailIn(r: Rule, l: nat, rs: Regions)
    requires OkIn(r, rs) && TailIn(l, rs).Some? && r.Enloop?
    ensures Ok(r, TailIn(l, rs).value)
  {
    if Tail(l, rs.b).Some? { OkTail(r, l, rs.b); } else { OkTailIn(r, l, rs.rest); }
  }

  // ----- positions in the new loop -----

  lemma {:induction false} TakeLast(n: nat, s: Block)
    requires 0 < n <= Len(s)
    ensures Take(n, s) == App(Take(n - 1, s), Single(NthStmt(s, n - 1)))
  {
    if n > 1 { TakeLast(n - 1, s.tl); } else { assert Take(1, s) == Cons(s.hd, Take(0, s.tl)); }
  }

  lemma {:induction false} NthLabel(n: nat, s: Block)
    requires n < Len(s) && NthStmt(s, n).Label?
    ensures NthStmt(s, n).l in Labels(s)
  {
    Unfold(s.hd, s.tl);
    if n > 0 { NthLabel(n - 1, s.tl); }
  }

  lemma {:induction false} NthGoto(n: nat, s: Block)
    requires n < Len(s) && NthStmt(s, n).Jump? && NthStmt(s, n).kind == Goto
    ensures (NthStmt(s, n).id, NthStmt(s, n).l) in Gotos(s)
  {
    Unfold(s.hd, s.tl);
    if n > 0 { NthGoto(n - 1, s.tl); }
  }

  /** The last statement of a loop body without a leaving jump is followed by the loop. */
  lemma {:induction false} LastAt(g: Block, g1: Block, r: Rule, s: Block, k: Block)
    requires Built(g, g1, r, s, k) && r.leave == None && 0 < r.n <= Len(s)
    ensures var loop, rest := LoopOf(r, s), App(Drop(r.n, s), k);
            IsCont(App(Take(r.n - 1, s), Cons(NthStmt(s, r.n - 1), Cons(loop, rest))), g1, Nil)
            && IsCont(Cons(NthStmt(s, r.n - 1), Cons(loop, rest)), g1, Nil)
  {
    var loop, rest, a := LoopOf(r, s), App(Drop(r.n, s), k), NthStmt(s, r.n - 1);
    EnterAt(loop, rest, 0, g1, Nil);
    AppNil(Take(r.n, s));
    TakeLast(r.n, s);
    AppAssoc(Take(r.n - 1, s), Single(a), Cons(loop, rest));
    assert App(Single(a), Cons(loop, rest)) == Cons(a, App(Nil, Cons(loop, rest)));
    SuffixAt(Take(r.n - 1, s), Cons(a, Cons(loop, rest)), g1);
  }

  /** A label right behind the loop leads where its break label leads. */
  lemma {:induction false} AfterLoop(g: Block, g1: Block, r: Rule, s: Block, k: Block, m: nat)
    requires Built(g, g1, r, s, k) && r.tag.brk.Some? && r.n < Len(s) && NthStmt(s, r.n) == Label(m)
    ensures SameTarget(g1, m, r.tag.brk.value)
  {
    DropNth(r.n, s);
    var loop, rest := LoopOf(r, s), App(Drop(r.n, s), k);
    assert rest == Cons(Label(m), App(Drop(r.n + 1, s), k));
    TailAt(loop, rest, g1, Nil);
    FindHere(m, Label(m), rest.tl, rest, g1, Nil);
  }

  /** Once the looping goto behind it is erased, a label at the end of the body leads where the label
      before the loop leads. */
  lemma {:induction false} EndOfLoop(g: Block, g1: Block, r: Rule, s: Block, k: Block, y: nat)
    requires Built(g, g1, r, s, k) && r.leave == None && 2 <= r.n <= Len(s)
    requires NthStmt(s, r.n - 2) == Label(y) && NthStmt(s, r.n - 1).Jump?
    ensures SameTarget(Apply(EraseOne(NthStmt(s, r.n - 1).id), g1), y, r.l)
  {
    var loop, rest, a := LoopOf(r, s), App(Drop(r.n, s), k), NthStmt(s, r.n - 1);
    var e := EraseOne(a.id);
    var x := Cons(a, Cons(loop, rest));
    LastAt(g, g1, r, s, k);
    TakeLast(r.n - 1, s);
    AppAssoc(Take(r.n - 2, s), Single(Label(y)), x);
    assert App(Single(Label(y)), x) == Cons(Label(y), App(Nil, x));
    SuffixAt(Take(r.n - 2, s), Cons(Label(y), x), g1);
    FindHere(y, Label(y), x, Cons(Label(y), x), g1, Nil);
    JumpsTarget(e, g1, y);
    JumpsTarget(e, g1, r.l);
    assert Apply(e, x) == App(Nil, Apply(e, Cons(loop, rest)));
  }

  // ----- creating one loop -----

  lemma {:induction false} JumpsBelow(r: Rule, p: Block, next: nat)
    requires r.Jumps? && Below(p, next)
    ensures Below(Apply(r, p), next)
  {
    JumpsForm(r, p);
  }

  /** The names of the gotos of `b` to the label assigned by `a`, if it assigns one. */
  function GotosTo(a: Option<Stmt>, b: Block): (names: set<nat>)
    ensures a.Some? && a.value.Label? ==> forall id :: id in names <==> (id, a.value.l) in Gotos(b)
    ensures names != {} ==> a.Some? && a.value.Label?
  {
    if a.Some? && a.value.Label? then set pr | pr in Gotos(b) && pr.1 == a.value.l :: pr.0 else {}
  }

  function StmtOf(s: Block, n: int): (a: Option<Stmt>)
    ensures a.Some? <==> 0 <= n < Len(s)
    ensures a.Some? ==> a.value == NthStmt(s, n)
  {
    if 0 <= n < Len(s) then Some(NthStmt(s, n)) else None
  }

  /** How the gotos `names` to label `l`, behind which `s` stands, become a loop. */
  datatype Plan = Plan(n: nat, inScope: bool, last: nat, remaining: set<nat>, toBreak: set<nat>, toContinue: set<nat>)

  function PlanLoop(s: Block, names: set<nat>): Plan
    requires Bound(names, s) > 0
  {
    var n := Bound(names, s);
    var a := NthStmt(s, n - 1);
    var inScope := a.Jump?;
    var last := if inScope then a.id else 0;
    var body := Take(n, s);
    Plan(n, inScope, last,
         if inScope then names - {last} else names,
         GotosTo(StmtOf(s, n), body),
         if inScope then GotosTo(StmtOf(s, n - 2), body) else {})
  }

  function LoopRule(l: nat, plan: Plan, next: nat): Rule {
    Enloop(l, plan.n,
           While(next, True,
                 if !plan.inScope || plan.toBreak != {} then Some(next) else None,
                 if plan.remaining != {} || plan.toContinue != {} then Some(next + 1) else None),
           if plan.inScope then None else Some(Jump(next, BreakTo, next)))
  }

  lemma {:induction false} LoopRuleOk(g: Block, l: nat, names: set<nat>, s: Block, next: nat)
    requires Proper(g) && Below(g, next) && Tail(l, g) == Some(s) && Bound(names, s) > 0
    ensures var r := LoopRule(l, PlanLoop(s, names), next);
            FreshFor(r, g) && SiteOk(r, Label(r.l), s) && LeavesByBreak(r) && r.tag.id !in Ops(g)
  {
    var plan := PlanLoop(s, names);
    var r := LoopRule(l, plan, next);
    TailFacts(l, g);
    assert TagLabels(r.tag) <= {next, next + 1};
    assert FreshFor(r, s);
    OrderLabels(s);
    EnloopClean(r, s);
    TakeDrop(plan.n, s);
    CleanTail(r, Take(plan.n, s), Drop(plan.n, s));
    if plan.inScope {
      TakeLast(plan.n, s);
      NoFallLast(Take(plan.n - 1, s), NthStmt(s, plan.n - 1));
    }
  }

  lemma {:induction false} NoFallLast(x: Block, a: Stmt)
    requires NoFall(a)
    ensures NoFallEnd(App(x, Single(a)))
  {
    if x.Cons? { NoFallLast(x.tl, a); }
  }

  lemma {:induction false} NthIsCont(n: nat, s: Block, k: Block)
    requires n < Len(s)
    ensures IsCont(Cons(NthStmt(s, n), App(Drop(n + 1, s), k)), s, k)
  {
    if n > 0 { NthIsCont(n - 1, s.tl, k); } else { assert Drop(1, s) == Drop(0, s.tl); }
  }

  /** The jump that bounds the loop is one of the looping gotos. */
  lemma {:induction false} LastIsGoto(s: Block, l: nat, names: set<nat>)
    requires DistinctNames(s) && Bound(names, s) > 0 && PlanLoop(s, names).inScope
    requires forall id :: id in names ==> (id, l) in Gotos(s)
    ensures PlanLoop(s, names).last in names
    ensures NthStmt(s, Bound(names, s) - 1) == Jump(PlanLoop(s, names).last, Goto, l)
  {
    var n := Bound(names, s);
    var a := NthStmt(s, n - 1);
    assert NamesOf(a) == {a.id};
    NthIsCont(n - 1, s, Nil);
    GotoOnly(s, a.id, l, a, App(Drop(n, s), Nil));
  }

  /** What `createLoop` guarantees. */
  ghost predicate LoopCreated(g: Block, q: Block, l: nat, names: set<nat>, s: Block, next: nat) {
    && Kept(g, q, {l} + Labels(s)) && Below(q, next)
    && forall id, m :: (id, m) in Gotos(q) ==> id !in names
  }

  lemma {:induction false} GotosTake(n: nat, s: Block)
    ensures Gotos(Take(n, s)) <= Gotos(s)
  {
    TakeDrop(n, s);
    OrderApp(Take(n, s), Drop(n, s));
  }

  lemma {:induction false} GotosName(id: nat, l: nat, b: Block)
    requires (id, l) in Gotos(b)
    ensures id in Names(b)
  {
    var s := GotoAt(id, l, b, Nil);
    NamesAt(Jump(id, Goto, l), s, b, Nil);
  }

  lemma {:induction false} BoundPositive(names: set<nat>, l: nat, s: Block)
    requires names != {} && forall id :: id in names ==> (id, l) in Gotos(s)
    ensures Bound(names, s) > 0
  {
    var id :| id in names;
    GotosName(id, l, s);
    assert id in Names(s) * names;
  }

  lemma {:induction false} BuiltBelow(g: Block, g1: Block, r: Rule, next: nat)
    requires Below(g, next) && r.Enloop? && r.tag.While? && r.tag.id == next && TagLabels(r.tag) <= {next, next + 1}
    requires LeaveNames(r) <= {next}
    requires Labels(g1) <= Labels(g) + TagLabels(r.tag) && Names(g1) <= Names(g) + LeaveNames(r)
    requires Ops(g1) <= Ops(g) + {r.tag.id}
    ensures Below(g1, next + 2)
  {}

  /** One more redirection keeps everything. */
  lemma {:induction false} RedirectThen(g: Block, p: Block, hit: set<nat>, names: set<nat>, l: nat, kind: JumpKind,
      new_: nat, next: nat)
    requires Kept(g, p, hit) && Below(p, next) && l in hit
    requires kind != Goto && new_ in Labels(p) && SameTarget(p, l, new_)
    requires forall id :: id in names ==> (id, l) in Gotos(p)
    ensures var q := Apply(RedirectAll(names, kind, new_), p);
            Kept(g, q, hit) && Below(q, next) && Labels(q) == Labels(p)
                && Gotos(q) == (set pr | pr in Gotos(p) && pr.0 !in names)
    ensures var q := Apply(RedirectAll(names, kind, new_), p);
            forall x, y :: SameTarget(p, x, y) ==> SameTarget(q, x, y)
  {
    var r := RedirectAll(names, kind, new_);
    var q := Apply(r, p);
    Redirect(p, names, l, kind, new_);
    KeptThen(g, p, q, hit, {l});
    assert hit + {l} == hit;
    JumpsBelow(r, p, next);
    forall x, y | SameTarget(p, x, y) ensures SameTarget(q, x, y) { SameKept(r, p, x, y); }
  }

  lemma {:induction false} EraseThen(g: Block, p: Block, hit: set<nat>, id: nat, l: nat, s: Block, next: nat)
    requires Kept(g, p, hit) && Below(p, next) && l in hit
    requires IsCont(Cons(Jump(id, Goto, l), s), p, Nil) && (id, l) in Gotos(p)
    requires SkipLabels(s) == SkipLabels(Target(p, l))
    ensures var q := Apply(EraseOne(id), p);
            Kept(g, q, hit) && Below(q, next) && Labels(q) == Labels(p)
                && Gotos(q) == (set pr | pr in Gotos(p) && pr.0 != id)
    ensures var q := Apply(EraseOne(id), p);
            forall x, y :: SameTarget(p, x, y) ==> SameTarget(q, x, y)
  {
    var r := EraseOne(id);
    var q := Apply(r, p);
    EraseGoto(p, id, l, s);
    KeptThen(g, p, q, hit, {l});
    assert hit + {l} == hit;
    JumpsBelow(r, p, next);
    forall x, y | SameTarget(p, x, y) ensures SameTarget(q, x, y) { SameKept(r, p, x, y); }
  }

  /** What the labels of the new loop are good for. */
  ghost predicate Wired(q: Block, l: nat, s: Block, plan: Plan, r: Rule)
    requires r.Enloop? && r.tag.While?
  {
    && (r.tag.cont.Some? ==> r.tag.cont.value in Labels(q) && SameTarget(q, l, r.tag.cont.value))
    && (r.tag.brk.Some? ==> r.tag.brk.value in Labels(q))
    && (plan.toBreak != {} ==> plan.n < Len(s) && NthStmt(s, plan.n).Label? && r.tag.brk.Some?
                               && SameTarget(q, NthStmt(s, plan.n).l, r.tag.brk.value))
    && (plan.toContinue != {} ==> 2 <= plan.n <= Len(s) && NthStmt(s, plan.n - 2).Label? && r.tag.cont.Some?
                                  && SameTarget(q, NthStmt(s, plan.n - 2).l, r.tag.cont.value))
  }

  /** Building the loop and erasing the last goto where it stands at its end. */
  lemma {:induction false} StartLoop(g: Block, l: nat, names: set<nat>, s: Block, next: nat)
    requires Proper(g) && Below(g, next) && Tail(l, g) == Some(s) && Bound(names, s) > 0
    requires forall id :: id in names ==> (id, l) in Gotos(s)
    ensures var plan := PlanLoop(s, names);
            var r := LoopRule(l, plan, next);
            var g1 := Apply(r, g);
            var g2 := if plan.inScope then Apply(EraseOne(plan.last), g1) else g1;
            && Kept(g, g2, {l} + Labels(s)) && Below(g2, next + 2) && Wired(g2, l, s, plan, r)
            && Gotos(g2) == (if plan.inScope then set pr | pr in Gotos(g) && pr.0 != plan.last else Gotos(g))
  {
    var plan := PlanLoop(s, names);
    var r := LoopRule(l, plan, next);
    var g1 := Apply(r, g);
    var hit := {l} + Labels(s);
    LoopRuleOk(g, l, names, s, next);
    var k := BuildLoop(g, r, s);
    BuiltBelow(g, g1, r, next);
    TailFacts(l, g);
    if plan.toBreak != {} { AfterLoop(g, g1, r, s, k, NthStmt(s, plan.n).l); }
    if plan.inScope {
      LastIsGoto(s, l, names);
      LastAt(g, g1, r, s, k);
      EraseThen(g, g1, hit, plan.last, l, Cons(LoopOf(r, s), App(Drop(r.n, s), k)), next + 2);
      if plan.toContinue != {} { EndOfLoop(g, g1, r, s, k, NthStmt(s, plan.n - 2).l); }
    }
  }

  /** The gotos to the labels around the loop are none of the looping gotos. */
  lemma {:induction false} PlanGotos(g: Block, l: nat, names: set<nat>, s: Block)
    requires Proper(g) && Tail(l, g) == Some(s) && Bound(names, s) > 0
    requires forall id :: id in names ==> (id, l) in Gotos(s)
    ensures var plan := PlanLoop(s, names);
            && Jumping(plan.toBreak, StmtOf(s, plan.n), g, Labels(s))
            && Jumping(plan.toContinue, StmtOf(s, plan.n - 2), g, Labels(s))
            && plan.toBreak !! names && plan.toContinue !! names && plan.toBreak !! plan.toContinue
  {
    var plan := PlanLoop(s, names);
    TailFacts(l, g);
    GotosTake(plan.n, s);
    if plan.toBreak != {} {
      NthLabel(plan.n, s);
      ApartFrom(g, plan.toBreak, NthStmt(s, plan.n).l, names, l);
    }
    if plan.toContinue != {} {
      NthLabel(plan.n - 2, s);
      ApartFrom(g, plan.toContinue, NthStmt(s, plan.n - 2).l, names, l);
    }
    if plan.toBreak != {} && plan.toContinue != {} {
      LabelsApart(plan.n - 2, plan.n, s);
      ApartFrom(g, plan.toContinue, NthStmt(s, plan.n - 2).l, plan.toBreak, NthStmt(s, plan.n).l);
    }
  }

  /** Gotos to different labels are different. */
  lemma {:induction false} ApartFrom(g: Block, x: set<nat>, l: nat, y: set<nat>, m: nat)
    requires Proper(g) && l != m
    requires (forall id :: id in x ==> (id, l) in Gotos(g)) && forall id :: id in y ==> (id, m) in Gotos(g)
    ensures x !! y
  {
    forall id | id in x && id in y ensures false { GotoUnique(g, id, l, m); }
  }

  /** The gotos `names` of `g`, if any, jump to the label assigned by `a`, one of `hit`. */
  ghost predicate Jumping(names: set<nat>, a: Option<Stmt>, g: Block, hit: set<nat>) {
    names != {} ==> a.Some? && a.value.Label? && a.value.l in hit && forall id ::
        id in names ==> (id, a.value.l) in Gotos(g)
  }

  lemma {:induction false} LabelsApart(i: nat, j: nat, s: Block)
    requires i < j < Len(s) && Distinct(s) && NthStmt(s, i).Label? && NthStmt(s, j).Label?
    ensures NthStmt(s, i) != NthStmt(s, j)
  {
    Unfold(s.hd, s.tl);
    if i > 0 { LabelsApart(i - 1, j - 1, s.tl); } else { NthLabel(j - 1, s.tl); }
  }

  /** The gotos `gone` of `g` are no gotos any more; everything else is as it was. */
  ghost predicate Stage(g: Block, q: Block, l: nat, s: Block, plan: Plan, r: Rule, next: nat, gone: set<nat>)
    requires r.Enloop? && r.tag.While?
  {
    && Kept(g, q, {l} + Labels(s)) && Below(q, next) && Wired(q, l, s, plan, r)
    && Gotos(q) == Without(Gotos(g), gone)
  }

  function Without(gotos: set<(nat, nat)>, gone: set<nat>): set<(nat, nat)> {
    set pr | pr in gotos && pr.0 !in gone
  }

  lemma {:induction false} NextStage(g: Block, q: Block, l: nat, s: Block, plan: Plan, r: Rule, next: nat,
      gone: set<nat>, gone2: set<nat>, names: set<nat>, m: nat, kind: JumpKind, new_: nat)
    requires r.Enloop? && r.tag.While? && Stage(g, q, l, s, plan, r, next, gone)
    requires m in {l} + Labels(s) && kind != Goto && new_ in Labels(q) && SameTarget(q, m, new_)
    requires names !! gone && gone2 == gone + names && forall id :: id in names ==> (id, m) in Gotos(g)
    ensures Stage(g, Apply(RedirectAll(names, kind, new_), q), l, s, plan, r, next, gone2)
  {
    RedirectThen(g, q, {l} + Labels(s), names, m, kind, new_, next);
  }

  /** The input of `createLoop`. */
  ghost predicate Looping(g: Block, l: nat, names: set<nat>, s: Block, next: nat) {
    && Proper(g) && Below(g, next) && Tail(l, g) == Some(s) && Bound(names, s) > 0
    && forall id :: id in names ==> (id, l) in Gotos(s)
  }

  ghost predicate StageOf(g: Block, q: Block, l: nat, names: set<nat>, s: Block, next: nat, gone: set<nat>)
    requires Looping(g, l, names, s, next)
  {
    var plan := PlanLoop(s, names);
    Stage(g, q, l, s, plan, LoopRule(l, plan, next), next + 2, gone)
  }

  /** The program after each step of `createLoop`. */
  function Step1(g: Block, l: nat, plan: Plan, next: nat): Block {
    var g1 := Apply(LoopRule(l, plan, next), g);
    if plan.inScope then Apply(EraseOne(plan.last), g1) else g1
  }

  function Step2(g: Block, l: nat, plan: Plan, next: nat): Block {
    var q := Step1(g, l, plan, next);
    if plan.remaining != {} then Apply(RedirectAll(plan.remaining, ContinueTo, next + 1), q) else q
  }

  function Step3(g: Block, l: nat, plan: Plan, next: nat): Block {
    var q := Step2(g, l, plan, next);
    if plan.toBreak != {} then Apply(RedirectAll(plan.toBreak, BreakTo, next), q) else q
  }

  function Step4(g: Block, l: nat, plan: Plan, next: nat): Block {
    var q := Step3(g, l, plan, next);
    if plan.toContinue != {} then Apply(RedirectAll(plan.toContinue, ContinueTo, next + 1), q) else q
  }

  lemma {:induction false} Stage1(g: Block, l: nat, names: set<nat>, s: Block, next: nat)
    requires Looping(g, l, names, s, next)
    ensures var plan := PlanLoop(s, names);
            StageOf(g, Step1(g, l, plan, next), l, names, s, next, names - plan.remaining)
  {
    var plan := PlanLoop(s, names);
    TailFacts(l, g);
    StartLoop(g, l, names, s, next);
    if plan.inScope {
      LastIsGoto(s, l, names);
      assert names - plan.remaining == {plan.last};
    }
  }

  lemma {:induction false} Stage2(g: Block, l: nat, names: set<nat>, s: Block, next: nat)
    requires Looping(g, l, names, s, next)
    ensures StageOf(g, Step2(g, l, PlanLoop(s, names), next), l, names, s, next, names)
  {
    var plan := PlanLoop(s, names);
    TailFacts(l, g);
    Stage1(g, l, names, s, next);
    var gone := names - plan.remaining;
    if plan.remaining != {} {
      NextStage(g, Step1(g, l, plan, next), l, s, plan, LoopRule(l, plan, next), next + 2, gone, names,
          plan.remaining, l, ContinueTo, next + 1);
    } else {
      assert gone == names;
    }
  }

  lemma {:induction false} Stage3(g: Block, l: nat, names: set<nat>, s: Block, next: nat)
    requires Looping(g, l, names, s, next)
    ensures var plan := PlanLoop(s, names);
            StageOf(g, Step3(g, l, plan, next), l, names, s, next, names + plan.toBreak)
  {
    var plan := PlanLoop(s, names);
    PlanGotos(g, l, names, s);
    Stage2(g, l, names, s, next);
    var gone := names + plan.toBreak;
    if plan.toBreak != {} {
      NextStage(g, Step2(g, l, plan, next), l, s, plan, LoopRule(l, plan, next), next + 2, names, gone, plan.toBreak,
          NthStmt(s, plan.n).l, BreakTo, next);
    } else {
      assert gone == names;
    }
  }

  lemma {:induction false} Stage4(g: Block, l: nat, names: set<nat>, s: Block, next: nat)
    requires Looping(g, l, names, s, next)
    ensures LoopCreated(g, Step4(g, l, PlanLoop(s, names), next), l, names, s, next + 2)
  {
    var plan := PlanLoop(s, names);
    PlanGotos(g, l, names, s);
    Stage3(g, l, names, s, next);
    var gone := names + plan.toBreak;
    if plan.toContinue != {} {
      NextStage(g, Step3(g, l, plan, next), l, s, plan, LoopRule(l, plan, next), next + 2, gone, gone + plan.toContinue,
                plan.toContinue, NthStmt(s, plan.n - 2).l, ContinueTo, next + 1);
    }
  }

  /** The names the steps redirect all come from the loop body. */
  lemma {:induction false} PlanInside(g: Block, l: nat, names: set<nat>, s: Block, next: nat)
    requires Looping(g, l, names, s, next)
    ensures var plan := PlanLoop(s, names);
            var body := Names(Take(plan.n, s));
            names <= body && plan.remaining <= body && plan.toBreak <= body && plan.toContinue <= body
  {
    var plan := PlanLoop(s, names);
    TakeDrop(plan.n, s);
    NamesApp(Take(plan.n, s), Drop(plan.n, s));
    forall id | id in names ensures id in Names(Take(plan.n, s)) { GotosName(id, l, s); }
    forall id | id in plan.toBreak
      ensures id in Names(Take(plan.n, s))
    {
      GotosName(id, StmtOf(s, plan.n).value.l, Take(plan.n, s));
    }
    forall id | id in plan.toContinue
      ensures id in Names(Take(plan.n, s))
    {
      GotosName(id, StmtOf(s, plan.n - 2).value.l, Take(plan.n, s));
    }
  }

  lemma {:induction false} StartLooping(g: Block, l: nat, names: set<nat>, next: nat)
    requires Proper(g) && Below(g, next) && names != {}
    requires forall id :: id in names ==> GotoBehind(g, l, id)
    ensures Tail(l, g).Some? && Looping(g, l, names, Tail(l, g).value, next)
  {
    var id :| id in names;
    assert GotoBehind(g, l, id);
    var s := Tail(l, g).value;
    assert forall id :: id in names ==> GotoBehind(g, l, id) && (id, l) in Gotos(s);
    BoundPositive(names, l, s);
  }
}
