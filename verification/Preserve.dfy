/** Rewritten programs stay well formed. */
module Preserve {
  import opened Clift
  import opened Static
  import opened Rules
  import opened Conditions
  import opened Sites
  import opened LabelLaws

  // ----- no runtime statement -----

  lemma {:induction false} PlainApp(x: Block, y: Block)
    ensures Plain(App(x, y)) <==> Plain(x) && Plain(y)
  {
    if x.Cons? { PlainApp(x.tl, y); }
  }

  lemma {:induction false} PlainAppendAt(rs: Regions, i: nat, m: Block)
    requires PlainIn(rs) && Plain(m)
    ensures PlainIn(AppendAt(rs, i, m)) && PlainIn(AppendFalling(rs, m))
  {
    PlainApp(rs.b, m);
    if rs.More? { PlainAppendAt(rs.rest, if i > 0 then i - 1 else 0, m); }
  }

  lemma PlainTwo(x: Block, y: Block)
    ensures PlainIn(More(x, One(y))) <==> Plain(x) && Plain(y)
  {}

  lemma PlainBreakUnless(inner: nat, c: Cond, thenBreak: bool, exit: Stmt, stay: Block)
    requires exit.Jump? && Plain(stay)
    ensures Plain(Single(BreakUnless(inner, c, thenBreak, exit, stay)))
  {
    assert Plain(Single(exit));
    PlainTwo(stay, Single(exit));
    PlainTwo(Single(exit), stay);
  }

  lemma PlainOne(a: Stmt, m: Block)
    requires Plain(Cons(a, m))
    ensures !a.Again? && (a.Nest? ==> PlainIn(a.rs)) && Plain(m)
    ensures a.Nest? ==> Plain(a.rs.b) && (a.rs.More? ==> PlainIn(a.rs.rest) && Plain(a.rs.rest.b))
  {}

  lemma PlainLocal(r: Rule, a: Stmt, m: Block)
    requires Site(r, a) && SiteOk(r, a, m) && Plain(Cons(a, m))
    ensures Plain(Local(r, a, m))
  {
    PlainOne(a, m);
    match r
    case Jumps(_) =>
    case DropLabels(_) =>
    case Sink(_, i, _) => PlainAppendAt(a.rs, i, m);
    case Spread(_) => PlainAppendAt(a.rs, 0, m);
    case Enloop(_, _, tag, leave) =>
      assert Plain(LeaveBlock(leave));
      PlainApp(m, LeaveBlock(leave));
      assert PlainIn(One(App(m, LeaveBlock(leave))));
    case Swap(_) => PlainTwo(a.rs.rest.b, a.rs.b);
    case Split(_, inner, innerElse, back) =>
      var x, y := a.rs.b, a.rs.rest.b;
      var deep := Nested(inner, a.tag.test.c.r, innerElse, x, back);
      assert Plain(back);
      PlainTwo(x, back);
      PlainTwo(back, x);
      assert Plain(Single(deep));
      PlainTwo(Single(deep), y);
    case BreakFirst(_, inner, n, thenBreak, exit) =>
      TakeDrop(n, a.rs.b);
      PlainApp(Take(n, a.rs.b), Drop(n, a.rs.b));
      var i := BreakUnless(inner, a.tag.c, thenBreak, exit, Take(n, a.rs.b));
      PlainBreakUnless(inner, a.tag.c, thenBreak, exit, Take(n, a.rs.b));
      assert PlainIn(One(Cons(i, Drop(n, a.rs.b))));
    case BreakLast(_, inner, thenBreak, exit, _) =>
      var i := BreakUnless(inner, a.tag.c, thenBreak, exit, Nil);
      PlainBreakUnless(inner, a.tag.c, thenBreak, exit, Nil);
      PlainApp(a.rs.b, Single(i));
      assert PlainIn(One(App(a.rs.b, Single(i))));
  }

  lemma {:induction false} PlainApply(r: Rule, b: Block)
    requires Plain(b) && Ok(r, b)
    ensures Plain(Apply(r, b))
    decreases Size(b)
  {
    match b
    case Nil =>
    case Cons(a, s) =>
      if Site(r, a) {
        var n := Span(r);
        var m, rest := Take(n, s), Drop(n, s);
        SiteOkTake(r, a, s);
        TakeDrop(n, s);
        PlainApp(m, rest);
        SizeDrop(n, s);
        OkDrop(r, n, s);
        PlainLocal(r, a, m);
        PlainApply(r, rest);
        PlainApp(Local(r, a, m), Apply(r, rest));
      } else {
        PlainApply(r, s);
        if a.Nest? {
          assert SizeOf(a) == 1 + SizeIn(a.rs);
          PlainApplyIn(r, a.rs);
        }
      }
  }

  lemma {:induction false} PlainApplyIn(r: Rule, rs: Regions)
    requires PlainIn(rs) && OkIn(r, rs)
    ensures PlainIn(ApplyIn(r, rs))
    decreases SizeIn(rs)
  {
    PlainApply(r, rs.b);
    if rs.More? { PlainApplyIn(r, rs.rest); }
  }

  // ----- distinct labels -----

  lemma {:induction false} DistinctJoin(x: Block, y: Block)
    requires Distinct(x) && Distinct(y) && Labels(x) !! Labels(y)
    ensures Distinct(App(x, y))
  {
    if x.Cons? {
      LabelsApp(x.tl, y);
      DistinctJoin(x.tl, y);
    }
  }

  lemma JumpAlone(j: Stmt)
    requires j.Jump?
    ensures Labels(Single(j)) == {} && Distinct(Single(j))
  {
    assert Labels(Single(j)) == LabelsOf(j) + Labels(Nil);
  }

  lemma DistinctTwo(x: Block, y: Block)
    ensures DistinctIn(More(x, One(y))) <==> Distinct(x) && Distinct(y) && Labels(x) !! Labels(y)
  {}

  lemma {:induction false} DistinctAppendAt(rs: Regions, i: nat, m: Block)
    requires DistinctIn(rs) && Distinct(m) && LabelsIn(rs) !! Labels(m)
    ensures DistinctIn(AppendAt(rs, i, m))
  {
    if i == 0 {
      LabelsApp(rs.b, m);
      DistinctJoin(rs.b, m);
    } else if rs.More? {
      DistinctAppendAt(rs.rest, i - 1, m);
      LabelsAppendAt(rs.rest, i - 1, m);
    }
  }

  lemma {:induction false} DistinctAppendFalling(rs: Regions, m: Block)
    requires DistinctIn(rs) && Distinct(m) && Labels(m) == {}
    ensures DistinctIn(AppendFalling(rs, m))
  {
    LabelsApp(rs.b, m);
    DistinctJoin(rs.b, m);
    if rs.More? {
      DistinctAppendFalling(rs.rest, m);
      LabelsAppendFalling(rs.rest, m);
    }
  }

  lemma DistinctBreakUnless(inner: nat, c: Cond, thenBreak: bool, exit: Stmt, stay: Block)
    requires exit.Jump? && Distinct(stay)
    ensures DistinctOf(BreakUnless(inner, c, thenBreak, exit, stay))
  {
    assert Labels(Single(exit)) == {} && Distinct(Single(exit));
    DistinctTwo(stay, Single(exit));
    DistinctTwo(Single(exit), stay);
  }

  lemma DistinctLoop(tag: Tag, body: Block)
    ensures DistinctOf(Nest(tag, One(body)))
       <==> && Distinct(body) && TagLabels(tag) !! Labels(body)
            && (BreakLabel(tag).Some? ==> BreakLabel(tag) != ContinueLabel(tag))
    ensures DistinctOf(Nest(tag, One(body))) ==> Distinct(Single(Nest(tag, One(body))))
  {
    assert DistinctIn(One(body)) <==> Distinct(body);
    assert LabelsIn(One(body)) == Labels(body);
  }

  lemma DistinctLocal(r: Rule, a: Stmt, m: Block)
    requires Site(r, a) && !a.Again? && SiteOk(r, a, m) && Distinct(Cons(a, m)) && m == Take(Span(r), m)
    requires r.Enloop? ==> Labels(m) !! TagLabels(r.tag)
    ensures Distinct(Local(r, a, m))
  {
    match r
    case Jumps(_) =>
    case DropLabels(_) =>
    case Sink(_, i, _) => DistinctAppendAt(a.rs, i, m);
    case Spread(_) => DistinctSpread(r, a, m);
    case Enloop(_, _, tag, leave) => DistinctEnloop(r, a, m);
    case Swap(_) =>
      DistinctTwo(a.rs.b, a.rs.rest.b);
      DistinctTwo(a.rs.rest.b, a.rs.b);
    case Split(_, _, _, _) => DistinctSplit(r, a);
    case BreakFirst(_, _, _, _, _) => DistinctBreakFirst(r, a);
    case BreakLast(_, inner, thenBreak, exit, _) =>
      var i := BreakUnless(inner, a.tag.c, thenBreak, exit, Nil);
      DistinctLoop(a.tag, a.rs.b);
      DistinctBreakUnless(inner, a.tag.c, thenBreak, exit, Nil);
      LabelsBreakUnless(inner, a.tag.c, thenBreak, exit, Nil);
      assert Distinct(Single(i)) && Labels(Single(i)) == {};
      DistinctJoin(a.rs.b, Single(i));
      LabelsApp(a.rs.b, Single(i));
      LabelsLoop(a.tag, a.rs.b);
      DistinctLoop(While(a.tag.id, True, a.tag.brk, a.tag.cont), App(a.rs.b, Single(i)));
  }

  lemma DistinctSpread(r: Rule, a: Stmt, m: Block)
    requires r.Spread? && Site(r, a) && SiteOk(r, a, m) && Distinct(Cons(a, m))
    ensures Distinct(Local(r, a, Take(1, m)))
    ensures m == Take(1, m) ==> Distinct(Local(r, a, m))
  {
    assert Take(1, m) == Single(m.hd) && Labels(Single(m.hd)) == {} && Distinct(Single(m.hd));
    DistinctAppendFalling(a.rs, Single(m.hd));
  }

  lemma DistinctEnloop(r: Rule, a: Stmt, m: Block)
    requires r.Enloop? && Site(r, a) && SiteOk(r, a, m) && Distinct(Cons(a, m)) && Labels(m) !! TagLabels(r.tag)
    ensures Distinct(Local(r, a, m))
  {
    var body := App(m, LeaveBlock(r.leave));
    if r.leave.Some? { JumpAlone(r.leave.value); }
    assert Distinct(LeaveBlock(r.leave)) && Labels(LeaveBlock(r.leave)) == {};
    LabelsApp(m, LeaveBlock(r.leave));
    DistinctJoin(m, LeaveBlock(r.leave));
    DistinctLoop(r.tag, body);
    LabelsLoop(r.tag, body);
  }

  lemma DistinctSplit(r: Rule, a: Stmt)
    requires r.Split? && Site(r, a) && SiteOk(r, a, Nil) && DistinctOf(a)
    ensures Distinct(Local(r, a, Nil))
  {
    var x, y := a.rs.b, a.rs.rest.b;
    var deep := Nested(r.inner, a.tag.test.c.r, r.innerElse, x, r.back);
    if r.back.Cons? { JumpAlone(r.back.hd); }
    DistinctTwo(x, y);
    DistinctTwo(x, r.back);
    DistinctTwo(r.back, x);
    FindTwo(0, x, r.back, Nil);
    FindTwo(0, r.back, x, Nil);
    assert LabelsOf(deep) == Labels(x) && DistinctOf(deep);
    assert Labels(Single(deep)) == LabelsOf(deep) + Labels(Nil) && Distinct(Single(deep));
    DistinctTwo(Single(deep), y);
  }

  lemma DistinctBreakFirst(r: Rule, a: Stmt)
    requires r.BreakFirst? && Site(r, a) && SiteOk(r, a, Nil) && DistinctOf(a)
    ensures Distinct(Local(r, a, Nil))
  {
    var x, y := Take(r.n, a.rs.b), Drop(r.n, a.rs.b);
    var i := BreakUnless(r.inner, a.tag.c, r.thenBreak, r.exit, x);
    DistinctLoop(a.tag, a.rs.b);
    TakeDrop(r.n, a.rs.b);
    LabelsApp(x, y);
    DistinctApp(x, y);
    LabelsBreakUnless(r.inner, a.tag.c, r.thenBreak, r.exit, x);
    DistinctBreakUnless(r.inner, a.tag.c, r.thenBreak, r.exit, x);
    LabelsLoop(a.tag, a.rs.b);
    DistinctLoop(While(a.tag.id, True, a.tag.brk, a.tag.cont), Cons(i, y));
  }

  /** The labels added by the rule when `b` holds the label `l` it looks for. */
  function Added(r: Rule, labels: set<nat>): set<nat> {
    if r.Enloop? && r.l in labels then TagLabels(r.tag) else {}
  }

  lemma {:induction false} LabelsAdded(r: Rule, b: Block)
    requires Ok(r, b)
    ensures Labels(Apply(r, b)) <= Labels(b) + Added(r, Labels(b))
    decreases Size(b)
  {
    match b
    case Nil =>
    case Cons(a, s) =>
      if Site(r, a) {
        LabelsApply(r, b);
      } else {
        LabelsAdded(r, s);
        if a.Nest? {
          assert SizeOf(a) == 1 + SizeIn(a.rs);
          LabelsAddedIn(r, a.rs);
        }
      }
  }

  lemma {:induction false} LabelsAddedIn(r: Rule, rs: Regions)
    requires OkIn(r, rs)
    ensures LabelsIn(ApplyIn(r, rs)) <= LabelsIn(rs) + Added(r, LabelsIn(rs))
    decreases SizeIn(rs)
  {
    LabelsAdded(r, rs.b);
    if rs.More? { LabelsAddedIn(r, rs.rest); }
  }

  lemma {:induction false} DistinctApply(r: Rule, b: Block)
    requires Distinct(b) && Ok(r, b)
    ensures Distinct(Apply(r, b))
    decreases Size(b)
  {
    match b
    case Nil =>
    case Cons(a, s) =>
      if r.Enloop? { FreshLabels(r, b); }
      if Site(r, a) {
        var n := Span(r);
        var m, rest := Take(n, s), Drop(n, s);
        SiteOkTake(r, a, s);
        TakeDrop(n, s);
        SizeDrop(n, s);
        OkDrop(r, n, s);
        assert b == App(Cons(a, m), rest);
        DistinctApp(Cons(a, m), rest);
        LabelsApp(Cons(a, m), rest);
        LabelsLocal(r, a, m);
        DistinctLocal(r, a, m);
        DistinctApply(r, rest);
        LabelsAdded(r, rest);
        DistinctJoin(Local(r, a, m), Apply(r, rest));
      } else {
        DistinctApply(r, s);
        LabelsAdded(r, s);
        if a.Nest? { DistinctStmt(r, a); }
      }
  }

  lemma {:induction false} DistinctStmt(r: Rule, a: Stmt)
    requires a.Nest? && !Site(r, a) && DistinctOf(a) && OkIn(r, a.rs)
    requires r.Enloop? ==> LabelsOf(a) !! TagLabels(r.tag)
    ensures DistinctOf(ApplyStmt(r, a))
    ensures LabelsOf(ApplyStmt(r, a)) <= LabelsOf(a) + Added(r, LabelsOf(a))
    decreases SizeOf(a)
  {
    assert SizeOf(a) == 1 + SizeIn(a.rs);
    DistinctApplyIn(r, a.rs);
    LabelsAddedIn(r, a.rs);
    assert TagLabels(Retag(r, a.tag)) <= TagLabels(a.tag);
  }

  lemma {:induction false} DistinctApplyIn(r: Rule, rs: Regions)
    requires DistinctIn(rs) && OkIn(r, rs)
    ensures DistinctIn(ApplyIn(r, rs))
    decreases SizeIn(rs)
  {
    DistinctApply(r, rs.b);
    if rs.More? {
      if r.Enloop? {
        FreshLabels(r, rs.b);
        FreshLabelsIn(r, rs.rest);
      }
      DistinctApplyIn(r, rs.rest);
      LabelsAdded(r, rs.b);
      LabelsAddedIn(r, rs.rest);
    }
  }
}
