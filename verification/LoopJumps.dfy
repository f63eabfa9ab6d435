/** Creating one loop: what becomes of every jump of the program. */
module LoopJumps {
  import opened Wrappers
  import opened Clift
  import opened Static
  import opened Rules
  import opened Conditions
  import opened Preserve
  import opened WellFormed
  import opened Branches
  import opened JumpLaws
  import opened NewLoop
  import opened OpenGotos
  import opened NamedJumps
  import opened LoopCreation

  // ----- the jumps of the result -----

  /** Statement `n` of `s` assigns the label `m`. */
  predicate Assigns(s: Block, n: int, m: nat) { 0 <= n < Len(s) && NthStmt(s, n) == Label(m) }

  /** An endless loop; its labels are `next` and `next + 1`, as far as something inside jumps to them. */
  predicate NewLoopAt(a: Stmt, next: nat) {
    && a.Nest? && a.tag.While? && a.tag.id == next && a.tag.c == True && a.rs.One?
    && (a.tag.brk.Some? ==> a.tag.brk.value == next && JumpsThere(JumpsOf(a), BreakTo, next))
    && (a.tag.cont.Some? ==> a.tag.cont.value == next + 1 && JumpsThere(JumpsOf(a), ContinueTo, next + 1))
  }

  predicate JumpsThere(js: set<Stmt>, kind: JumpKind, l: nat) {
    exists j :: j in js && j.Jump? && j.kind == kind && j.l == l
  }

  /** The gotos of the body to the label right behind the loop leave it by break. */
  ghost predicate ToBreaks(q: Block, s: Block, n: nat, js: set<Stmt>, next: nat) {
    forall id: nat, m: nat :: Assigns(s, n, m) && (id, m) in Gotos(Take(n, s)) ==>
      (id, m) !in Gotos(q) && Jump(id, BreakTo, next) in js
  }

  /** Where the loop ends with a looping goto, the gotos of the body to the label in front of that goto
      continue the loop. */
  ghost predicate ToContinues(q: Block, s: Block, n: nat, js: set<Stmt>, next: nat)
    requires 0 < n <= Len(s)
  {
    NthStmt(s, n - 1).Jump? ==>
      forall id: nat, y: nat :: Assigns(s, n - 2, y) && (id, y) in Gotos(Take(n, s)) ==>
        (id, y) !in Gotos(q) && Jump(id, ContinueTo, next + 1) in js
  }

  /** The looping goto that ends the loop is erased, the others continue the loop. */
  ghost predicate Loopings(q: Block, l: nat, s: Block, names: set<nat>, n: nat, js: set<Stmt>, next: nat)
    requires 0 < n <= Len(s)
  {
    forall id :: id in names ==>
      if NthStmt(s, n - 1) == Jump(id, Goto, l) then id !in Names(q) else Jump(id, ContinueTo, next + 1) in js
  }

  /** The jump is none of those that the loop replaces. */
  predicate Unaffected(j: Stmt, s: Block, names: set<nat>, n: nat)
    requires j.Jump? && 0 < n <= Len(s)
  {
    && j.id !in names
    && (j.kind == Goto && j in AllJumps(Take(n, s)) ==>
          !Assigns(s, n, j.l) && (NthStmt(s, n - 1).Jump? ==> !Assigns(s, n - 2, j.l)))
  }

  /** All other jumps stay; the only new one leaves a loop that does not end with a looping goto. */
  ghost predicate Others(g: Block, q: Block, s: Block, names: set<nat>, n: nat, js: set<Stmt>, next: nat)
    requires 0 < n <= Len(s)
  {
    && (forall j :: j in AllJumps(g) && Unaffected(j, s, names, n) ==> j in AllJumps(q))
    && (forall j :: j in AllJumps(Take(n, s)) && Unaffected(j, s, names, n) ==> j in js)
    && Names(q) <= Names(g) + {next}
    && (if NthStmt(s, n - 1).Jump? then next !in Names(q) else Jump(next, BreakTo, next) in js)
  }

  /** The loop stands behind label `l`; it holds the statements up to the last one with a looping goto.  `s` is
      the code behind the label before, `t` the code behind it now. */
  ghost predicate LoopMade(g: Block, q: Block, l: nat, names: set<nat>, s: Block, t: Block, next: nat)
    requires Bound(names, s) > 0
  {
    var n := Bound(names, s);
    && t.Cons? && NewLoopAt(t.hd, next) && t.tl == Drop(n, s)
    && ToBreaks(q, s, n, JumpsOf(t.hd), next) && ToContinues(q, s, n, JumpsOf(t.hd), next)
    && Loopings(q, l, s, names, n, JumpsOf(t.hd), next) && Others(g, q, s, names, n, JumpsOf(t.hd), next)
  }

  function Toward(names: set<nat>, kind: JumpKind, l: nat): map<nat, Fate> {
    map id | id in names :: Retarget(kind, l)
  }

  /** The fates of the steps so far in one rule. */
  function Fates1(plan: Plan): map<nat, Fate> { if plan.inScope then map[plan.last := Erase] else map[] }

  function Fates2(plan: Plan, next: nat): map<nat, Fate> {
    Fates1(plan) + Toward(plan.remaining, ContinueTo, next + 1)
  }

  function Fates3(plan: Plan, next: nat): map<nat, Fate> {
    Fates2(plan, next) + Toward(plan.toBreak, BreakTo, next)
  }

  function Fates4(plan: Plan, next: nat): map<nat, Fate> {
    Fates3(plan, next) + Toward(plan.toContinue, ContinueTo, next + 1)
  }

  predicate PlanDisjoint(plan: Plan) {
    && plan.remaining !! plan.toBreak && plan.remaining !! plan.toContinue && plan.toBreak !! plan.toContinue
    && (plan.inScope ==> plan.last !in plan.remaining + plan.toBreak + plan.toContinue)
  }

  /** A step that redirects nothing may be left out. */
  lemma {:induction false} MergeStep(x: map<nat, Fate>, names: set<nat>, kind: JumpKind, l: nat, b: Block, q: Block)
    requires x.Keys !! names && q == Apply(Jumps(x), b) && Plain(b)
    ensures Apply(Jumps(x + Toward(names, kind, l)), b)
        == if names != {} then Apply(RedirectAll(names, kind, l), q) else q
  {
    var y := Toward(names, kind, l);
    Merge(x, y, b);
    if names == {} { assert x + y == x; }
  }

  lemma {:induction false} StepsMerged(g: Block, l: nat, plan: Plan, next: nat)
    requires PlanDisjoint(plan) && Plain(Apply(LoopRule(l, plan, next), g))
    ensures Step4(g, l, plan, next) == Apply(Jumps(Fates4(plan, next)), Apply(LoopRule(l, plan, next), g))
  {
    var g1 := Apply(LoopRule(l, plan, next), g);
    assert Step1(g, l, plan, next) == Apply(Jumps(Fates1(plan)), g1) by {
      if !plan.inScope { JumpsElsewhere(Jumps(Fates1(plan)), g1); }
    }
    MergeStep(Fates1(plan), plan.remaining, ContinueTo, next + 1, g1, Step1(g, l, plan, next));
    assert Step2(g, l, plan, next) == Apply(Jumps(Fates2(plan, next)), g1);
    MergeStep(Fates2(plan, next), plan.toBreak, BreakTo, next, g1, Step2(g, l, plan, next));
    assert Step3(g, l, plan, next) == Apply(Jumps(Fates3(plan, next)), g1);
    MergeStep(Fates3(plan, next), plan.toContinue, ContinueTo, next + 1, g1, Step3(g, l, plan, next));
  }

  lemma {:induction false} FatesKeys(plan: Plan, next: nat, id: nat)
    ensures id in Fates4(plan, next) <==>
      (plan.inScope && id == plan.last) || id in plan.remaining + plan.toBreak + plan.toContinue
  {}

  lemma {:induction false} PlanApart(g: Block, l: nat, names: set<nat>, s: Block, next: nat)
    requires Looping(g, l, names, s, next)
    ensures PlanDisjoint(PlanLoop(s, names))
    ensures PlanLoop(s, names).inScope ==> NthStmt(s, Bound(names, s) - 1) == Jump(PlanLoop(s, names).last, Goto, l)
    ensures forall id :: id in Fates4(PlanLoop(s, names), next) ==> id in Names(Take(Bound(names, s), s))
  {
    var plan := PlanLoop(s, names);
    TailFacts(l, g);
    PlanGotos(g, l, names, s);
    PlanInside(g, l, names, s, next);
    if plan.inScope { LastIsGoto(s, l, names); }
    forall id | id in Fates4(plan, next) ensures id in Names(Take(plan.n, s)) { FatesKeys(plan, next, id); }
  }

  /** The program after the last step, as one rule. */
  function Final(g: Block, l: nat, plan: Plan, next: nat): Block {
    Apply(Jumps(Fates4(plan, next)), Apply(LoopRule(l, plan, next), g))
  }

  function NewBody(s: Block, plan: Plan, next: nat): Block {
    App(Take(plan.n, s), LeaveBlock(LoopRule(0, plan, next).leave))
  }

  lemma {:induction false} FinalIsStep4(g: Block, l: nat, names: set<nat>, s: Block, next: nat)
    requires Looping(g, l, names, s, next)
    ensures Final(g, l, PlanLoop(s, names), next) == Step4(g, l, PlanLoop(s, names), next)
  {
    var plan := PlanLoop(s, names);
    PlanApart(g, l, names, s, next);
    LoopRuleOk(g, l, names, s, next);
    var k := BuildLoop(g, LoopRule(l, plan, next), s);
    StepsMerged(g, l, plan, next);
  }

  lemma {:induction false} FinalTail(g: Block, l: nat, names: set<nat>, s: Block, next: nat)
    requires Looping(g, l, names, s, next)
    ensures var plan := PlanLoop(s, names);
            var body := Apply(Jumps(Fates4(plan, next)), NewBody(s, plan, next));
            Tail(l, Final(g, l, plan, next))
                == Some(Cons(Nest(LoopRule(l, plan, next).tag, One(body)), Drop(plan.n, s)))
  {
    var plan := PlanLoop(s, names);
    var r, e := LoopRule(l, plan, next), Jumps(Fates4(plan, next));
    PlanApart(g, l, names, s, next);
    LoopRuleOk(g, l, names, s, next);
    EnloopOk(r, g);
    EnloopOwnTail(r, g);
    JumpsTail(e, l, Apply(r, g));
    RestUntouched(g, l, s, plan.n, e.fate);
    OnLoop(e, r.tag, NewBody(s, plan, next), Drop(plan.n, s));
  }

  lemma {:induction false} OnLoop(e: Rule, tag: Tag, b: Block, rest: Block)
    requires e.Jumps?
    ensures Apply(e, Cons(Nest(tag, One(b)), rest)) == Cons(Nest(tag, One(Apply(e, b))), Apply(e, rest))
  {
    assert ApplyIn(e, One(b)) == One(Apply(e, b));
    assert ApplyStmt(e, Nest(tag, One(b))) == Nest(tag, ApplyIn(e, One(b)));
  }

  lemma {:induction false} FinalJumps(g: Block, l: nat, names: set<nat>, s: Block, next: nat)
    requires Looping(g, l, names, s, next)
    ensures var plan := PlanLoop(s, names);
            && AllJumps(g) <= AllJumps(Apply(LoopRule(l, plan, next), g))
            && Names(Final(g, l, plan, next)) <= Names(g) + LeaveNames(LoopRule(l, plan, next))
  {
    var plan := PlanLoop(s, names);
    var r := LoopRule(l, plan, next);
    LoopRuleOk(g, l, names, s, next);
    EnloopOk(r, g);
    EnloopJumps(r, g);
    EnloopGrown(r, g);
    JumpsForm(Jumps(Fates4(plan, next)), Apply(r, g));
  }

  lemma {:induction false} RestUntouched(g: Block, l: nat, s: Block, n: nat, f: map<nat, Fate>)
    requires Proper(g) && Tail(l, g) == Some(s) && forall id :: id in f ==> id in Names(Take(n, s))
    ensures Apply(Jumps(f), Drop(n, s)) == Drop(n, s)
  {
    TailFacts(l, g);
    TakeDrop(n, s);
    NamesApp(Take(n, s), Drop(n, s));
    PlainApp(Take(n, s), Drop(n, s));
    JumpsElsewhere(Jumps(f), Drop(n, s));
  }

  lemma {:induction false} FateOf(plan: Plan, next: nat, j: Stmt)
    requires PlanDisjoint(plan) && j.Jump?
    ensures After(Jumps(Fates4(plan, next)), j) ==
      if plan.inScope && j.id == plan.last then None
      else if j.id in plan.remaining || j.id in plan.toContinue then Some(Jump(j.id, ContinueTo, next + 1))
      else if j.id in plan.toBreak then Some(Jump(j.id, BreakTo, next))
      else Some(j)
  {
    FatesKeys(plan, next, j.id);
  }

  /** The jumps of the new loop. */
  function Inside(s: Block, plan: Plan, next: nat): set<Stmt> {
    AllJumps(Apply(Jumps(Fates4(plan, next)), NewBody(s, plan, next)))
  }

  /** What becomes of a jump of the body, in the loop and in the program. */
  lemma {:induction false} BodyJump(g: Block, l: nat, names: set<nat>, s: Block, next: nat, j: Stmt)
    requires Looping(g, l, names, s, next) && j in AllJumps(Take(Bound(names, s), s))
    ensures var plan := PlanLoop(s, names);
            var k := After(Jumps(Fates4(plan, next)), j);
            k.Some? ==> k.value in Inside(s, plan, next) && k.value in AllJumps(Final(g, l, plan, next))
  {
    var plan := PlanLoop(s, names);
    var e := Jumps(Fates4(plan, next));
    if After(e, j).Some? {
      AllJumpsApp(Take(plan.n, s), LeaveBlock(LoopRule(0, plan, next).leave));
      JumpsAfter(e, NewBody(s, plan, next), j);
      TailJumps(l, g);
      TakeJumps(plan.n, s);
      FinalJumps(g, l, names, s, next);
      JumpsAfter(e, Apply(LoopRule(l, plan, next), g), j);
    }
  }

  /** The jump is no goto any more. */
  lemma {:induction false} NoGoto(q: Block, id: nat, m: nat, k: Stmt)
    requires DistinctNames(q) && k in AllJumps(q) && k.id == id && k.kind != Goto
    ensures (id, m) !in Gotos(q)
  {
    GotosAreJumps(q, id, m);
    if (id, m) in Gotos(q) { OneOfAName(q, k, Jump(id, Goto, m)); }
  }

  lemma {:induction false} MadeBreaks(g: Block, l: nat, names: set<nat>, s: Block, next: nat)
    requires Looping(g, l, names, s, next)
    requires DistinctNames(Final(g, l, PlanLoop(s, names), next))
    ensures var plan := PlanLoop(s, names);
            ToBreaks(Final(g, l, plan, next), s, plan.n, Inside(s, plan, next), next)
  {
    var plan := PlanLoop(s, names);
    var q, n := Final(g, l, plan, next), plan.n;
    PlanApart(g, l, names, s, next);
    forall id: nat, m: nat | Assigns(s, n, m) && (id, m) in Gotos(Take(n, s))
      ensures (id, m) !in Gotos(q) && Jump(id, BreakTo, next) in Inside(s, plan, next)
    {
      var j := Jump(id, Goto, m);
      GotosAreJumps(Take(n, s), id, m);
      BodyJump(g, l, names, s, next, j);
      FateOf(plan, next, j);
      assert id in plan.toBreak;
      NoGoto(q, id, m, Jump(id, BreakTo, next));
    }
  }

  lemma {:induction false} MadeContinues(g: Block, l: nat, names: set<nat>, s: Block, next: nat)
    requires Looping(g, l, names, s, next)
    requires DistinctNames(Final(g, l, PlanLoop(s, names), next))
    ensures var plan := PlanLoop(s, names);
            ToContinues(Final(g, l, plan, next), s, plan.n, Inside(s, plan, next), next)
  {
    var plan := PlanLoop(s, names);
    var q, n := Final(g, l, plan, next), plan.n;
    PlanApart(g, l, names, s, next);
    if plan.inScope {
      var before := plan.n as int - 2;
      forall id: nat, y: nat | Assigns(s, before, y) && (id, y) in Gotos(Take(n, s))
        ensures (id, y) !in Gotos(q) && Jump(id, ContinueTo, next + 1) in Inside(s, plan, next)
      {
        var j := Jump(id, Goto, y);
        GotosAreJumps(Take(n, s), id, y);
        BodyJump(g, l, names, s, next, j);
        FateOf(plan, next, j);
        assert id in plan.toContinue;
        NoGoto(q, id, y, Jump(id, ContinueTo, next + 1));
      }
    }
  }

  lemma {:induction false} LoopingFate(g: Block, l: nat, names: set<nat>, s: Block, next: nat, id: nat)
    requires Looping(g, l, names, s, next) && id in names
    ensures var plan := PlanLoop(s, names);
            if NthStmt(s, plan.n - 1) == Jump(id, Goto, l) then id !in Names(Final(g, l, plan, next))
            else Jump(id, ContinueTo, next + 1) in Inside(s, plan, next)
  {
    var plan := PlanLoop(s, names);
    PlanApart(g, l, names, s, next);
    if plan.inScope && id == plan.last {
      FatesKeys(plan, next, id);
      ErasedGone(Jumps(Fates4(plan, next)), Apply(LoopRule(l, plan, next), g), id);
    } else {
      UsedBy(g, l, names, s, next, id);
    }
  }

  lemma {:induction false} MadeLoopings(g: Block, l: nat, names: set<nat>, s: Block, next: nat)
    requires Looping(g, l, names, s, next)
    ensures var plan := PlanLoop(s, names);
            Loopings(Final(g, l, plan, next), l, s, names, plan.n, Inside(s, plan, next), next)
  {
    forall id | id in names
      ensures var plan := PlanLoop(s, names);
              if NthStmt(s, plan.n - 1) == Jump(id, Goto, l) then id !in Names(Final(g, l, plan, next))
              else Jump(id, ContinueTo, next + 1) in Inside(s, plan, next)
    {
      LoopingFate(g, l, names, s, next, id);
    }
  }

  lemma {:induction false} MadeOthers(g: Block, l: nat, names: set<nat>, s: Block, next: nat)
    requires Looping(g, l, names, s, next)
    ensures var plan := PlanLoop(s, names);
            Others(g, Final(g, l, plan, next), s, names, plan.n, Inside(s, plan, next), next)
  {
    var plan := PlanLoop(s, names);
    var q, e := Final(g, l, plan, next), Jumps(Fates4(plan, next));
    PlanApart(g, l, names, s, next);
    FinalJumps(g, l, names, s, next);
    forall j | j in AllJumps(g) && Unaffected(j, s, names, plan.n) ensures j in AllJumps(q) {
      StaysSo(g, l, names, s, next, j);
      JumpsAfter(e, Apply(LoopRule(l, plan, next), g), j);
    }
    forall j | j in AllJumps(Take(plan.n, s)) && Unaffected(j, s, names, plan.n)
      ensures j in Inside(s, plan, next)
    {
      TailJumps(l, g);
      TakeJumps(plan.n, s);
      StaysSo(g, l, names, s, next, j);
      BodyJump(g, l, names, s, next, j);
    }
    if !plan.inScope { LeavesAtEnd(g, l, names, s, next); }
  }

  /** The jump that leaves the loop at its end. */
  lemma {:induction false} LeavesAtEnd(g: Block, l: nat, names: set<nat>, s: Block, next: nat)
    requires Looping(g, l, names, s, next) && !PlanLoop(s, names).inScope
    ensures Jump(next, BreakTo, next) in Inside(s, PlanLoop(s, names), next)
  {
    var plan := PlanLoop(s, names);
    var e, j := Jumps(Fates4(plan, next)), Jump(next, BreakTo, next);
    PlanApart(g, l, names, s, next);
    TailFacts(l, g);
    TakeDrop(plan.n, s);
    NamesApp(Take(plan.n, s), Drop(plan.n, s));
    assert next !in e.fate;
    AllJumpsApp(Take(plan.n, s), Single(j));
    assert j in AllJumps(Single(j));
    JumpsAfter(e, NewBody(s, plan, next), j);
  }

  lemma {:induction false} StaysSo(g: Block, l: nat, names: set<nat>, s: Block, next: nat, j: Stmt)
    requires Looping(g, l, names, s, next) && j in AllJumps(g) && Unaffected(j, s, names, Bound(names, s))
    ensures After(Jumps(Fates4(PlanLoop(s, names), next)), j) == Some(j)
  {
    var plan := PlanLoop(s, names);
    PlanApart(g, l, names, s, next);
    TailFacts(l, g);
    if plan.inScope { LastIsGoto(s, l, names); }
    TailJumps(l, g);
    TakeJumps(plan.n, s);
    NotAimed(g, s, names, j);
    FateOf(plan, next, j);
  }

  lemma {:induction false} NotAimed(g: Block, s: Block, names: set<nat>, j: Stmt)
    requires Bound(names, s) > 0 && DistinctNames(g) && j in AllJumps(g) && Unaffected(j, s, names, Bound(names, s))
    requires AllJumps(Take(Bound(names, s), s)) <= AllJumps(g)
    ensures j.id !in PlanLoop(s, names).toBreak && j.id !in PlanLoop(s, names).toContinue
  {
    var plan := PlanLoop(s, names);
    if j.id in plan.toBreak { Named(g, s, plan.n, j, NthStmt(s, plan.n).l); }
    if j.id in plan.toContinue { Named(g, s, plan.n, j, NthStmt(s, plan.n - 2).l); }
  }

  /** A jump with the name of a goto of the body is that goto. */
  lemma {:induction false} Named(g: Block, s: Block, n: nat, j: Stmt, m: nat)
    requires DistinctNames(g) && j in AllJumps(g) && AllJumps(Take(n, s)) <= AllJumps(g)
    requires (j.id, m) in Gotos(Take(n, s))
    ensures j == Jump(j.id, Goto, m) && j in AllJumps(Take(n, s))
  {
    GotosAreJumps(Take(n, s), j.id, m);
    OneOfAName(g, j, Jump(j.id, Goto, m));
  }

  lemma {:induction false} MadeLoop(g: Block, l: nat, names: set<nat>, s: Block, next: nat)
    requires Looping(g, l, names, s, next)
    ensures var q := Step4(g, l, PlanLoop(s, names), next);
            Tail(l, q).Some? && LoopMade(g, q, l, names, s, Tail(l, q).value, next)
  {
    var plan := PlanLoop(s, names);
    var q := Final(g, l, plan, next);
    FinalIsStep4(g, l, names, s, next);
    Stage4(g, l, names, s, next);
    FinalTail(g, l, names, s, next);
    var a := Tail(l, q).value.hd;
    assert JumpsOf(a) == AllJumpsIn(a.rs) == Inside(s, plan, next);
    MadeBreaks(g, l, names, s, next);
    MadeContinues(g, l, names, s, next);
    MadeLoopings(g, l, names, s, next);
    MadeOthers(g, l, names, s, next);
    LabelsUsed(g, l, names, s, next);
  }

  /** The loop has a label only if something inside jumps to it. */
  lemma {:induction false} LabelsUsed(g: Block, l: nat, names: set<nat>, s: Block, next: nat)
    requires Looping(g, l, names, s, next)
    ensures var plan := PlanLoop(s, names);
            var tag := LoopRule(l, plan, next).tag;
            && (tag.brk.Some? ==> JumpsThere(Inside(s, plan, next), BreakTo, next))
            && (tag.cont.Some? ==> JumpsThere(Inside(s, plan, next), ContinueTo, next + 1))
  {
    var plan := PlanLoop(s, names);
    PlanApart(g, l, names, s, next);
    PlanInside(g, l, names, s, next);
    NamesAreIds(Take(plan.n, s));
    if plan.toBreak != {} {
      var id :| id in plan.toBreak;
      UsedBy(g, l, names, s, next, id);
    } else if !plan.inScope {
      LeavesAtEnd(g, l, names, s, next);
    }
    if plan.remaining != {} {
      var id :| id in plan.remaining;
      UsedBy(g, l, names, s, next, id);
    } else if plan.toContinue != {} {
      var id :| id in plan.toContinue;
      UsedBy(g, l, names, s, next, id);
    }
  }

  lemma {:induction false} UsedBy(g: Block, l: nat, names: set<nat>, s: Block, next: nat, id: nat)
    requires Looping(g, l, names, s, next)
    requires var plan := PlanLoop(s, names); id in plan.toBreak || id in plan.toContinue || id in plan.remaining
    ensures var plan := PlanLoop(s, names);
            && (id in plan.toBreak ==> Jump(id, BreakTo, next) in Inside(s, plan, next))
            && (id !in plan.toBreak ==> Jump(id, ContinueTo, next + 1) in Inside(s, plan, next))
  {
    var plan := PlanLoop(s, names);
    PlanApart(g, l, names, s, next);
    PlanInside(g, l, names, s, next);
    NamesAreIds(Take(plan.n, s));
    var j :| j in AllJumps(Take(plan.n, s)) && j.id == id;
    FateOf(plan, next, j);
    BodyJump(g, l, names, s, next, j);
  }

  /** The label of the loop, the one right behind it, or the one at its end: they may have lost jumps. */
  predicate AtLoop(l: nat, names: set<nat>, s: Block, m: nat)
    requires Bound(names, s) > 0
  {
    var n := Bound(names, s);
    m == l || Assigns(s, n, m) || (NthStmt(s, n - 1).Jump? && Assigns(s, n - 2, m))
  }

  /** The steps of `createLoop` one by one. */
  method TakeSteps(g: Block, l: nat, names: set<nat>, s: Block, next: nat) returns (q: Block, affected: set<nat>)
    requires Bound(names, s) > 0
    ensures q == Step4(g, l, PlanLoop(s, names), next)
    ensures affected <= {l} + Labels(s) && forall m: nat :: m in affected <==> AtLoop(l, names, s, m)
  {
    var plan := PlanLoop(s, names);
    q, affected := Apply(LoopRule(l, plan, next), g), {l};
    if plan.inScope {
      q := Apply(EraseOne(plan.last), q);
    }
    if plan.remaining != {} {
      q := Apply(RedirectAll(plan.remaining, ContinueTo, next + 1), q);
    }
    var after := StmtOf(s, plan.n);
    if after.Some? && after.value.Label? {
      NthLabel(plan.n, s);
      if plan.toBreak != {} {
        q := Apply(RedirectAll(plan.toBreak, BreakTo, next), q);
      }
      affected := affected + {after.value.l};
    }
    assert q == Step3(g, l, plan, next);
    var end := StmtOf(s, plan.n - 2);
    if plan.inScope && end.Some? && end.value.Label? {
      NthLabel(plan.n - 2, s);
      if plan.toContinue != {} {
        q := Apply(RedirectAll(plan.toContinue, ContinueTo, next + 1), q);
      }
      affected := affected + {end.value.l};
    }
    assert q == Step4(g, l, plan, next);
  }

  /** Creates the loop behind label `l` that the gotos `names` jump back to.  Identities and labels
      from `next` on are unused; `affected` are the labels that may have lost their last jump. */
  method CreateLoop(g: Block, l: nat, names: set<nat>, next: nat) returns (q: Block, affected: set<nat>)
    requires Proper(g) && Below(g, next) && names != {}
    requires forall id :: id in names ==> GotoBehind(g, l, id)
    ensures Tail(l, g).Some? && LoopCreated(g, q, l, names, Tail(l, g).value, next + 2)
    ensures Looping(g, l, names, Tail(l, g).value, next) && q == Step4(g, l, PlanLoop(Tail(l, g).value, names), next)
    ensures Tail(l, q).Some? && LoopMade(g, q, l, names, Tail(l, g).value, Tail(l, q).value, next)
    ensures affected <= {l} + Labels(Tail(l, g).value)
    ensures forall m: nat :: m in affected <==> AtLoop(l, names, Tail(l, g).value, m)
  {
    StartLooping(g, l, names, next);
    var s := Tail(l, g).value;
    q, affected := TakeSteps(g, l, names, s, next);
    Stage4(g, l, names, s, next);
    MadeLoop(g, l, names, s, next);
  }
}
