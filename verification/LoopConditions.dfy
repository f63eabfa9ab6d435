/** Promoting a conditional break of an endless loop into the condition of a while or a do-while. */
module LoopConditions {
  import opened Wrappers
  import opened Clift
  import opened Static
  import opened Rules
  import opened Conditions
  import opened Sites
  import opened LabelLaws
  import opened Preserve
  import opened WellFormed
  import opened InPlace
  import opened KeepForm
  import opened Branches

  /** Operation `id` is `while (true)` and no jump targets its continue label. */
  predicate HasEndless(p: Block, id: nat) {
    && Seek(id, p).Some? && Seek(id, p).value.Cons?
    && var a := Op(p, id);
       a.Nest? && a.tag.While? && a.tag.id == id && a.tag.c == True && a.rs.One? && Targets(p) !! OptSet(a.tag.cont)
  }

  /** The region consists of one break of the loop. */
  predicate IsBreak(tag: Tag, b: Block) {
    b.Cons? && b.tl == Nil && b.hd.Jump? && b.hd.kind == BreakTo && BreakLabel(tag) == Some(b.hd.l)
  }

  /** The condition under which the loop goes on. */
  function StayCond(i: Stmt, thenBreak: bool): Cond
    requires TwoWay(i)
  {
    if thenBreak then Not(i.tag.test.c) else i.tag.test.c
  }

  function BreakSide(i: Stmt, thenBreak: bool): Block
    requires TwoWay(i)
  {
    if thenBreak then i.rs.b else i.rs.rest.b
  }

  function StaySide(i: Stmt, thenBreak: bool): Block
    requires TwoWay(i)
  {
    if thenBreak then i.rs.rest.b else i.rs.b
  }

  lemma BreakUnlessIs(i: Stmt, thenBreak: bool)
    requires TwoWay(i) && BreakSide(i, thenBreak).Cons? && BreakSide(i, thenBreak).tl == Nil
    ensures BreakUnless(i.tag.id, StayCond(i, thenBreak), thenBreak, BreakSide(i, thenBreak).hd,
        StaySide(i, thenBreak)) == i
  {
    assert i == Nest(Branch(i.tag.id, If(i.tag.test.c)), More(i.rs.b, One(i.rs.rest.b)));
  }

  lemma SideSets(i: Stmt, thenBreak: bool)
    requires TwoWay(i) && BreakSide(i, thenBreak).Cons? && BreakSide(i, thenBreak).tl == Nil
    requires BreakSide(i, thenBreak).hd.Jump?
    ensures var x := StaySide(i, thenBreak);
            && LabelsOf(i) == Labels(x) && OpsOf(i) == {i.tag.id} + Ops(x)
            && TargetsOf(i) == Targets(x) + {BreakSide(i, thenBreak).hd.l}
            && (PlainIn(i.rs) ==> Plain(x)) && (DistinctOf(i) ==> Distinct(x)) && (DistinctOpsOf(i) ==> DistinctOps(x))
  {
    var x, y := i.rs.b, i.rs.rest.b;
    var j := BreakSide(i, thenBreak);
    JumpAlone(j.hd);
    assert j == Single(j.hd) && Ops(j) == OpsOf(j.hd) + Ops(Nil) && Targets(j) == TargetsOf(j.hd) + Targets(Nil);
    assert i.rs == More(x, One(y));
    PlainTwo(x, y);
    OpsTwo(x, y);
    DistinctTwo(x, y);
    FindTwo(0, x, y, Nil);
  }

  // ----- while -----

  predicate LeadingBreak(a: Stmt, i: Stmt, thenBreak: bool)
    requires a.Nest?
  {
    a.rs.b.Cons? && a.rs.b.hd == i && TwoWay(i) && IsBreak(a.tag, BreakSide(i, thenBreak))
  }

  function Promoted(a: Stmt, i: Stmt, thenBreak: bool): Stmt
    requires a.Nest? && a.tag.While? && LeadingBreak(a, i, thenBreak)
  {
    Nest(While(a.tag.id, StayCond(i, thenBreak), a.tag.brk, a.tag.cont), One(App(StaySide(i, thenBreak), a.rs.b.tl)))
  }

  lemma PromotedFits(p: Block, id: nat, i: Stmt, thenBreak: bool)
    requires WF(p) && HasEndless(p, id) && LeadingBreak(Op(p, id), i, thenBreak)
    ensures Fits(id, Op(p, id), Single(Promoted(Op(p, id), i, thenBreak)))
  {
    var a := Op(p, id);
    var x, y := StaySide(i, thenBreak), a.rs.b.tl;
    SeekFacts(id, p);
    SideSets(i, thenBreak);
    PlainApp(x, y);
    OpsApp(x, y);
    LabelsApp(x, y);
    LoopSets(a.tag, a.rs.b);
    DistinctJoin(x, y);
    DistinctOpsJoin(x, y);
    LoopSets(Promoted(a, i, thenBreak).tag, App(x, y));
  }

  /** Everything about a loop statement, unfolded. */
  lemma LoopSets(tag: Tag, body: Block)
    ensures var a := Nest(tag, One(body));
            && LabelsOf(a) == TagLabels(tag) + Labels(body) && Labels(Single(a)) == LabelsOf(a)
            && OpsOf(a) == TagId(tag) + Ops(body) && Ops(Single(a)) == OpsOf(a)
            && TargetsOf(a) == Targets(body) && Targets(Single(a)) == TargetsOf(a)
            && (Plain(Single(a)) <==> Plain(body)) && (PlainIn(a.rs) <==> Plain(body))
            && (DistinctOps(Single(a)) <==> TagId(tag) !! Ops(body) && DistinctOps(body))
            && (DistinctOpsOf(a) <==> TagId(tag) !! Ops(body) && DistinctOps(body))
            && (Distinct(Single(a)) <==> DistinctOf(a))
            && (DistinctOf(a) <==> && Distinct(body) && TagLabels(tag) !! Labels(body)
                                   && (BreakLabel(tag).Some? ==> BreakLabel(tag) != ContinueLabel(tag)))
  {
    LabelsLoop(tag, body);
    DistinctLoop(tag, body);
    assert OpsIn(One(body)) == Ops(body) && TargetsIn(One(body)) == Targets(body);
    assert DistinctOpsIn(One(body)) <==> DistinctOps(body);
    assert PlainIn(One(body)) <==> Plain(body);
    NestSets(tag, One(body), Nil);
  }

  /** `while (true) { if (c) break; else X; Y }` becomes `while (!c) { X; Y }`. */
  lemma WhileConditionPromotion(p: Block, id: nat, i: Stmt, thenBreak: bool)
    requires WF(p) && HasEndless(p, id) && LeadingBreak(Op(p, id), i, thenBreak)
    ensures var q := Put(id, Single(Promoted(Op(p, id), i, thenBreak)), p);
            WF(q) && Equivalent(p, q)
  {
    var a := Op(p, id);
    var x, y := StaySide(i, thenBreak), a.rs.b.tl;
    var m := Promoted(a, i, thenBreak);
    var r := BreakFirst(id, i.tag.id, Len(x), thenBreak, BreakSide(i, thenBreak).hd);
    SeekFacts(id, p);
    PromotedFits(p, id, i, thenBreak);
    BreakUnlessIs(i, thenBreak);
    TakeLen(x);
    TakeDropApp(Len(x), x, y);
    LoopSets(m.tag, App(x, y));
    CleanAbsentIn(r, m.rs);
    assert a == Nest(While(id, True, a.tag.brk, a.tag.cont), One(Cons(i, y)));
    assert App(Nil, y) == y;
    assert Local(r, m, Nil) == Single(a);
    PutPreserves(r, Single(m), p);
  }

  // ----- do-while -----

  predicate TrailingBreak(a: Stmt, x: Block, i: Stmt, thenBreak: bool)
    requires a.Nest?
  {
    && a.rs.b == App(x, Single(i)) && TwoWay(i) && IsBreak(a.tag, BreakSide(i, thenBreak))
    && StaySide(i, thenBreak) == Nil
  }

  function DoPromoted(a: Stmt, x: Block, i: Stmt, thenBreak: bool): Stmt
    requires a.Nest? && a.tag.While? && TrailingBreak(a, x, i, thenBreak)
  {
    Nest(DoWhile(a.tag.id, StayCond(i, thenBreak), a.tag.brk, a.tag.cont), One(x))
  }

  lemma DoPromotedFits(p: Block, id: nat, x: Block, i: Stmt, thenBreak: bool)
    requires WF(p) && HasEndless(p, id) && TrailingBreak(Op(p, id), x, i, thenBreak)
    ensures Fits(id, Op(p, id), Single(DoPromoted(Op(p, id), x, i, thenBreak)))
  {
    var a := Op(p, id);
    SeekFacts(id, p);
    LoopSets(a.tag, a.rs.b);
    PlainApp(x, Single(i));
    OpsApp(x, Single(i));
    LabelsApp(x, Single(i));
    DistinctApp(x, Single(i));
    DistinctOpsSplit(x, Single(i));
    SideSets(i, thenBreak);
    assert Labels(Single(i)) == LabelsOf(i) && Ops(Single(i)) == OpsOf(i);
    LoopSets(DoPromoted(a, x, i, thenBreak).tag, x);
  }

  /** `while (true) { X; if (c) break; }` becomes `do { X } while (!c)`. */
  lemma DoWhileConditionPromotion(p: Block, id: nat, x: Block, i: Stmt, thenBreak: bool)
    requires WF(p) && HasEndless(p, id) && TrailingBreak(Op(p, id), x, i, thenBreak)
    ensures var q := Put(id, Single(DoPromoted(Op(p, id), x, i, thenBreak)), p);
            WF(q) && Equivalent(p, q)
  {
    var a := Op(p, id);
    var m := DoPromoted(a, x, i, thenBreak);
    var r := BreakLast(id, i.tag.id, thenBreak, BreakSide(i, thenBreak).hd, OptSet(a.tag.cont));
    SeekFacts(id, p);
    DoPromotedFits(p, id, x, i, thenBreak);
    BreakUnlessIs(i, thenBreak);
    LoopSets(a.tag, a.rs.b);
    LoopSets(m.tag, x);
    CleanAbsentIn(r, m.rs);
    assert a == Nest(While(id, True, a.tag.brk, a.tag.cont), One(a.rs.b));
    assert Local(r, m, Nil) == Single(a);
    assert Undoes(r, Single(m), a);
    PutPreserves(r, Single(m), p);
  }
}
