/** Loop detection yields trees that the dialect accepts: jumps to loop labels stand in their loop. */
module LoopNesting {
  import opened Wrappers
  import opened Clift
  import opened Static
  import opened Rules
  import opened Conditions
  import opened WellFormed
  import opened JumpLaws
  import opened NewLoop
  import opened LoopCreation

  // ----- the verifiers of jumps -----

  predicate JumpOk(a: Stmt, brks: set<nat>, conts: set<nat>)
    requires a.Jump?
  {
    match a.kind
    case BreakTo => a.l in brks
    case ContinueTo => a.l in conts
    case Goto => a.l !in brks && a.l !in conts
  }

  /** Breaks and continues target a loop around them, gotos do not; `brks` and `conts` are the labels of
      the loops around the block. */
  predicate WellNested(b: Block, brks: set<nat>, conts: set<nat>) {
    match b
    case Nil => true
    case Cons(a, s) =>
      && (a.Jump? ==> JumpOk(a, brks, conts))
      && (a.Nest? ==> WellNestedIn(a.rs, brks + OptSet(BreakLabel(a.tag)), conts + OptSet(ContinueLabel(a.tag))))
      && WellNested(s, brks, conts)
  }

  predicate WellNestedIn(rs: Regions, brks: set<nat>, conts: set<nat>) {
    match rs
    case One(b) => WellNested(b, brks, conts)
    case More(b, r) => WellNested(b, brks, conts) && WellNestedIn(r, brks, conts)
  }

  /** The label that a jump of this kind uses for the loop. */
  function LabelFor(tag: Tag, kind: JumpKind): Option<nat> {
    if kind == BreakTo then BreakLabel(tag) else ContinueLabel(tag)
  }

  /** The jumps of a block outside any loop with label `l` of this kind. */
  function Outside(b: Block, kind: JumpKind, l: nat): set<nat> {
    match b case Nil => {} case Cons(a, s) => OutsideOf(a, kind, l) + Outside(s, kind, l)
  }

  function OutsideOf(a: Stmt, kind: JumpKind, l: nat): set<nat> {
    match a
    case Jump(id, _, _) => {id}
    case Nest(tag, rs) => if LabelFor(tag, kind) == Some(l) then {} else OutsideIn(rs, kind, l)
    case _ => {}
  }

  function OutsideIn(rs: Regions, kind: JumpKind, l: nat): set<nat> {
    match rs case One(b) => Outside(b, kind, l) case More(b, r) => Outside(b, kind, l) + OutsideIn(r, kind, l)
  }

  lemma {:induction false} NestedApp(x: Block, y: Block, brks: set<nat>, conts: set<nat>)
    ensures WellNested(App(x, y), brks, conts) <==> WellNested(x, brks, conts) && WellNested(y, brks, conts)
  {
    if x.Cons? { NestedApp(x.tl, y, brks, conts); }
  }

  lemma {:induction false} OutsideApp(x: Block, y: Block, kind: JumpKind, l: nat)
    ensures Outside(App(x, y), kind, l) == Outside(x, kind, l) + Outside(y, kind, l)
  {
    if x.Cons? { OutsideApp(x.tl, y, kind, l); }
  }

  lemma {:induction false} OutsideNames(b: Block, kind: JumpKind, l: nat)
    ensures Outside(b, kind, l) <= Names(b)
  {
    if b.Cons? {
      Unfold(b.hd, b.tl);
      OutsideNames(b.tl, kind, l);
      if b.hd.Nest? { OutsideNamesIn(b.hd.rs, kind, l); }
    }
  }

  lemma {:induction false} OutsideNamesIn(rs: Regions, kind: JumpKind, l: nat)
    ensures OutsideIn(rs, kind, l) <= NamesIn(rs)
  {
    OutsideNames(rs.b, kind, l);
    if rs.More? { OutsideNamesIn(rs.rest, kind, l); }
  }

  // ----- more loops around -----

  /** More loops around a block do no harm as long as no goto targets their labels. */
  lemma {:induction false} NestedDeeper(b: Block, brks: set<nat>, conts: set<nat>, brks2: set<nat>, conts2: set<nat>)
    requires WellNested(b, brks, conts) && brks <= brks2 && conts <= conts2
    requires Targets(b) !! (brks2 - brks) && Targets(b) !! (conts2 - conts)
    ensures WellNested(b, brks2, conts2)
  {
    if b.Cons? {
      Unfold(b.hd, b.tl);
      NestedDeeper(b.tl, brks, conts, brks2, conts2);
      if b.hd.Nest? {
        var x, y := OptSet(BreakLabel(b.hd.tag)), OptSet(ContinueLabel(b.hd.tag));
        NestedDeeperIn(b.hd.rs, brks + x, conts + y, brks2 + x, conts2 + y);
      }
    }
  }

  lemma {:induction false} NestedDeeperIn(rs: Regions, brks: set<nat>, conts: set<nat>, brks2: set<nat>,
      conts2: set<nat>)
    requires WellNestedIn(rs, brks, conts) && brks <= brks2 && conts <= conts2
    requires TargetsIn(rs) !! (brks2 - brks) && TargetsIn(rs) !! (conts2 - conts)
    ensures WellNestedIn(rs, brks2, conts2)
  {
    NestedDeeper(rs.b, brks, conts, brks2, conts2);
    if rs.More? { NestedDeeperIn(rs.rest, brks, conts, brks2, conts2); }
  }

  // ----- building a loop -----

  /** The new loop and the statements behind it. */
  lemma EnloopNestedHere(r: Rule, s: Block, brks: set<nat>, conts: set<nat>)
    requires FreshFor(r, s) && LeavesByBreak(r) && r.n <= Len(s) && WellNested(s, brks, conts)
    requires Targets(s) !! TagLabels(r.tag)
    requires r.leave.Some? ==> LeavesBy(r.tag, r.leave.value)
    ensures WellNested(Cons(LoopOf(r, s), Drop(r.n, s)), brks, conts)
  {
    var m, rest, v := Take(r.n, s), Drop(r.n, s), LeaveBlock(r.leave);
    var x, y := OptSet(BreakLabel(r.tag)), OptSet(ContinueLabel(r.tag));
    TakeDrop(r.n, s);
    NestedApp(m, rest, brks, conts);
    TargetsApp(m, rest);
    NestedDeeper(m, brks, conts, brks + x, conts + y);
    assert WellNested(v, brks + x, conts + y);
    NestedApp(m, v, brks + x, conts + y);
  }

  lemma {:induction false} TargetsApp(x: Block, y: Block)
    ensures Targets(App(x, y)) == Targets(x) + Targets(y)
  {
    if x.Cons? { TargetsApp(x.tl, y); }
  }

  lemma {:induction false} EnloopNested(r: Rule, b: Block, brks: set<nat>, conts: set<nat>)
    requires FreshFor(r, b) && LeavesByBreak(r) && Plain(b) && Distinct(b) && Ok(r, b) && WellNested(b, brks, conts)
    requires Targets(b) !! TagLabels(r.tag)
    ensures WellNested(Apply(r, b), brks, conts)
  {
    if b.Cons? {
      var Cons(a, s) := b;
      Unfold(a, s);
      if a == Label(r.l) {
        EnloopHere(r, s);
        EnloopNestedHere(r, s, brks, conts);
      } else {
        EnloopNested(r, s, brks, conts);
        if a.Nest? { EnloopNestedIn(r, a.rs, brks + OptSet(BreakLabel(a.tag)), conts + OptSet(ContinueLabel(a.tag))); }
      }
    }
  }

  lemma {:induction false} EnloopNestedIn(r: Rule, rs: Regions, brks: set<nat>, conts: set<nat>)
    requires FreshForIn(r, rs) && LeavesByBreak(r) && PlainIn(rs) && DistinctIn(rs) && OkIn(r, rs)
    requires WellNestedIn(rs, brks, conts) && TargetsIn(rs) !! TagLabels(r.tag)
    ensures WellNestedIn(ApplyIn(r, rs), brks, conts)
  {
    EnloopNested(r, rs.b, brks, conts);
    if rs.More? { EnloopNestedIn(r, rs.rest, brks, conts); }
  }

  /** The statements taken into the loop at the label itself are inside it. */
  lemma InsideHere(r: Rule, s: Block, kind: JumpKind, l: nat)
    requires r.Enloop? && r.tag.While?
    requires FreshFor(r, Cons(Label(r.l), s)) && Plain(Cons(Label(r.l), s)) && Distinct(Cons(Label(r.l), s))
    requires Ok(r, Cons(Label(r.l), s)) && DistinctNames(s) && LabelFor(r.tag, kind) == Some(l) && r.n <= Len(s)
    ensures Outside(Apply(r, Cons(Label(r.l), s)), kind, l) !! Names(Take(r.n, s))
  {
    EnloopHere(r, s);
    TakeDrop(r.n, s);
    NamesApp(Take(r.n, s), Drop(r.n, s));
    OutsideNames(Drop(r.n, s), kind, l);
    assert OutsideOf(LoopOf(r, s), kind, l) == {};
    assert Outside(Cons(LoopOf(r, s), Drop(r.n, s)), kind, l) == Outside(Drop(r.n, s), kind, l);
  }

  lemma {:induction false} EnloopInside(r: Rule, b: Block, kind: JumpKind, l: nat)
    requires FreshFor(r, b) && LeavesByBreak(r) && Plain(b) && Distinct(b) && Ok(r, b) && DistinctNames(b)
    requires LabelFor(r.tag, kind) == Some(l) && Tail(r.l, b).Some? && r.n <= Len(Tail(r.l, b).value)
    ensures Outside(Apply(r, b), kind, l) !! Names(Take(r.n, Tail(r.l, b).value))
  {
    var Cons(a, s) := b;
    Unfold(a, s);
    OrderLabels(s);
    if a == Label(r.l) {
      InsideHere(r, s, kind, l);
    } else if a.Nest? && TailIn(r.l, a.rs).Some? {
      TailOrderIn(r.l, a.rs);
      OrderLabelsIn(a.rs);
      EnloopClean(r, s);
      ApplyClean(r, s, Nil);
      OutsideNames(s, kind, l);
      EnloopInsideIn(r, a.rs, kind, l);
      TailFactsIn(r.l, a.rs);
      TakeNames(r.n, TailIn(r.l, a.rs).value);
    } else {
      TailFacts(r.l, s);
      TakeNames(r.n, Tail(r.l, s).value);
      EnloopInside(r, s, kind, l);
      if a.Nest? {
        TailOrderIn(r.l, a.rs);
        EnloopCleanIn(r, a.rs);
        ApplyCleanIn(r, a.rs);
        OutsideNamesIn(a.rs, kind, l);
      }
    }
  }

  lemma TakeNames(n: nat, s: Block)
    ensures Names(Take(n, s)) <= Names(s)
  {
    TakeDrop(n, s);
    NamesApp(Take(n, s), Drop(n, s));
  }

  lemma {:induction false} EnloopInsideIn(r: Rule, rs: Regions, kind: JumpKind, l: nat)
    requires FreshForIn(r, rs) && LeavesByBreak(r) && PlainIn(rs) && DistinctIn(rs) && OkIn(r, rs)
    requires DistinctNamesIn(rs)
    requires LabelFor(r.tag, kind) == Some(l) && TailIn(r.l, rs).Some? && r.n <= Len(TailIn(r.l, rs).value)
    ensures OutsideIn(ApplyIn(r, rs), kind, l) !! Names(Take(r.n, TailIn(r.l, rs).value))
  {
    OrderLabels(rs.b);
    TailOrder(r.l, rs.b);
    if Tail(r.l, rs.b).Some? {
      EnloopInside(r, rs.b, kind, l);
      TailFacts(r.l, rs.b);
      TakeNames(r.n, Tail(r.l, rs.b).value);
      if rs.More? {
        OrderLabelsIn(rs.rest);
        EnloopCleanIn(r, rs.rest);
        ApplyCleanIn(r, rs.rest);
        OutsideNamesIn(rs.rest, kind, l);
      }
    } else {
      EnloopClean(r, rs.b);
      ApplyClean(r, rs.b, Nil);
      OutsideNames(rs.b, kind, l);
      EnloopInsideIn(r, rs.rest, kind, l);
      TailFactsIn(r.l, rs.rest);
      TakeNames(r.n, TailIn(r.l, rs.rest).value);
    }
  }

  // ----- erasing and redirecting jumps -----

  /** Jumps are erased or become jumps of this kind to `l`. */
  ghost predicate Aims(r: Rule, kind: JumpKind, l: nat) {
    r.Jumps? && kind != Goto && forall id :: id in r.fate && r.fate[id].Retarget? ==> r.fate[id] == Retarget(kind, l)
  }

  predicate InLoops(kind: JumpKind, l: nat, brks: set<nat>, conts: set<nat>) {
    if kind == BreakTo then l in brks else l in conts
  }

  /** The names that the rule redirects are not outside the loop. */
  predicate Aimed(r: Rule, outside: set<nat>)
    requires r.Jumps?
  {
    forall id :: id in r.fate && r.fate[id].Retarget? ==> id !in outside
  }

  lemma {:induction false} JumpsNested(r: Rule, kind: JumpKind, l: nat, b: Block, brks: set<nat>, conts: set<nat>)
    requires Aims(r, kind, l) && WellNested(b, brks, conts)
    requires (InLoops(kind, l, brks, conts) || Aimed(r, Outside(b, kind, l)))
    ensures WellNested(Apply(r, b), brks, conts)
  {
    match b
    case Nil =>
    case Cons(a, s) =>
      JumpsNested(r, kind, l, s, brks, conts);
      if Site(r, a) {
        NestedApp(Local(r, a, Nil), Apply(r, s), brks, conts);
      } else if a.Nest? {
        JumpsNestedIn(r, kind, l, a.rs, brks + OptSet(BreakLabel(a.tag)), conts + OptSet(ContinueLabel(a.tag)));
      }
  }

  lemma {:induction false} JumpsNestedIn(r: Rule, kind: JumpKind, l: nat, rs: Regions, brks: set<nat>, conts: set<nat>)
    requires Aims(r, kind, l) && WellNestedIn(rs, brks, conts)
    requires (InLoops(kind, l, brks, conts) || Aimed(r, OutsideIn(rs, kind, l)))
    ensures WellNestedIn(ApplyIn(r, rs), brks, conts)
  {
    JumpsNested(r, kind, l, rs.b, brks, conts);
    if rs.More? { JumpsNestedIn(r, kind, l, rs.rest, brks, conts); }
  }

  /** No jump leaves a loop. */
  lemma {:induction false} JumpsOutside(r: Rule, b: Block, kind: JumpKind, l: nat)
    requires r.Jumps?
    ensures Outside(Apply(r, b), kind, l) <= Outside(b, kind, l)
  {
    match b
    case Nil =>
    case Cons(a, s) =>
      JumpsOutside(r, s, kind, l);
      if Site(r, a) {
        OutsideApp(Local(r, a, Nil), Apply(r, s), kind, l);
        assert Outside(Local(r, a, Nil), kind, l) <= {a.id};
      } else if a.Nest? {
        JumpsOutsideIn(r, a.rs, kind, l);
      }
  }

  lemma {:induction false} JumpsOutsideIn(r: Rule, rs: Regions, kind: JumpKind, l: nat)
    requires r.Jumps?
    ensures OutsideIn(ApplyIn(r, rs), kind, l) <= OutsideIn(rs, kind, l)
  {
    JumpsOutside(r, rs.b, kind, l);
    if rs.More? { JumpsOutsideIn(r, rs.rest, kind, l); }
  }

  // ----- dropping labels -----

  lemma {:induction false} DropNested(x: nat, b: Block, brks: set<nat>, conts: set<nat>, brks2: set<nat>,
      conts2: set<nat>)
    requires WellNested(b, brks, conts) && x !in Targets(b) && brks2 <= brks && conts2 <= conts
    requires brks - {x} <= brks2 && conts - {x} <= conts2
    ensures WellNested(Apply(DropLabels({x}), b), brks2, conts2)
  {
    var r := DropLabels({x});
    match b
    case Nil =>
    case Cons(a, s) =>
      Unfold(a, s);
      DropNested(x, s, brks, conts, brks2, conts2);
      if Site(r, a) {
        assert App(Nil, Apply(r, s)) == Apply(r, s);
      } else if a.Nest? {
        var t := Retag(r, a.tag);
        DropNestedIn(x, a.rs, brks + OptSet(BreakLabel(a.tag)), conts + OptSet(ContinueLabel(a.tag)),
                     brks2 + OptSet(BreakLabel(t)), conts2 + OptSet(ContinueLabel(t)));
      }
  }

  lemma {:induction false} DropNestedIn(x: nat, rs: Regions, brks: set<nat>, conts: set<nat>, brks2: set<nat>,
      conts2: set<nat>)
    requires WellNestedIn(rs, brks, conts) && x !in TargetsIn(rs) && brks2 <= brks && conts2 <= conts
    requires brks - {x} <= brks2 && conts - {x} <= conts2
    ensures WellNestedIn(ApplyIn(DropLabels({x}), rs), brks2, conts2)
  {
    DropNested(x, rs.b, brks, conts, brks2, conts2);
    if rs.More? { DropNestedIn(x, rs.rest, brks, conts, brks2, conts2); }
  }

  // ----- one loop -----

  /** The facts that each redirection keeps: jumps are nested, and the loop body stays in the loop. */
  ghost predicate Inside(q: Block, body: set<nat>, r: Rule)
    requires r.Enloop?
  {
    && WellNested(q, {}, {})
    && (BreakLabel(r.tag).Some? ==> Outside(q, BreakTo, BreakLabel(r.tag).value) !! body)
    && (ContinueLabel(r.tag).Some? ==> Outside(q, ContinueTo, ContinueLabel(r.tag).value) !! body)
  }

  lemma InsideBuilt(g: Block, l: nat, names: set<nat>, s: Block, next: nat)
    requires Looping(g, l, names, s, next) && WellNested(g, {}, {})
    ensures var plan := PlanLoop(s, names);
            var r := LoopRule(l, plan, next);
            Inside(Apply(r, g), Names(Take(plan.n, s)), r)
  {
    var plan := PlanLoop(s, names);
    var r := LoopRule(l, plan, next);
    LoopRuleOk(g, l, names, s, next);
    EnloopOk(r, g);
    assert TagLabels(r.tag) <= {next, next + 1};
    EnloopNested(r, g, {}, {});
    if r.tag.brk.Some? { EnloopInside(r, g, BreakTo, r.tag.brk.value); }
    if r.tag.cont.Some? { EnloopInside(r, g, ContinueTo, r.tag.cont.value); }
  }

  lemma InsideErased(q: Block, body: set<nat>, r: Rule, id: nat)
    requires r.Enloop? && Inside(q, body, r)
    ensures Inside(Apply(EraseOne(id), q), body, r)
  {
    var e := EraseOne(id);
    JumpsNested(e, BreakTo, 0, q, {}, {});
    if BreakLabel(r.tag).Some? { JumpsOutside(e, q, BreakTo, BreakLabel(r.tag).value); }
    if ContinueLabel(r.tag).Some? { JumpsOutside(e, q, ContinueTo, ContinueLabel(r.tag).value); }
  }

  lemma InsideRedirected(q: Block, body: set<nat>, r: Rule, names: set<nat>, kind: JumpKind)
    requires r.Enloop? && Inside(q, body, r) && names <= body && kind != Goto && LabelFor(r.tag, kind).Some?
    ensures Inside(Apply(RedirectAll(names, kind, LabelFor(r.tag, kind).value), q), body, r)
  {
    var l := LabelFor(r.tag, kind).value;
    var e := RedirectAll(names, kind, l);
    JumpsNested(e, kind, l, q, {}, {});
    if BreakLabel(r.tag).Some? { JumpsOutside(e, q, BreakTo, BreakLabel(r.tag).value); }
    if ContinueLabel(r.tag).Some? { JumpsOutside(e, q, ContinueTo, ContinueLabel(r.tag).value); }
  }

  /** Creating a loop keeps jumps nested. */
  lemma CreatedNested(g: Block, l: nat, names: set<nat>, s: Block, next: nat)
    requires Looping(g, l, names, s, next) && WellNested(g, {}, {})
    ensures WellNested(Step4(g, l, PlanLoop(s, names), next), {}, {})
  {
    var plan := PlanLoop(s, names);
    var r, body := LoopRule(l, plan, next), Names(Take(plan.n, s));
    PlanInside(g, l, names, s, next);
    InsideBuilt(g, l, names, s, next);
    if plan.inScope { InsideErased(Apply(r, g), body, r, plan.last); }
    if plan.remaining != {} { InsideRedirected(Step1(g, l, plan, next), body, r, plan.remaining, ContinueTo); }
    if plan.toBreak != {} { InsideRedirected(Step2(g, l, plan, next), body, r, plan.toBreak, BreakTo); }
    if plan.toContinue != {} { InsideRedirected(Step3(g, l, plan, next), body, r, plan.toContinue, ContinueTo); }
  }
}
