/** Label lookup across a whole rewritten program. */
module LabelLaws {
  import opened Wrappers
  import opened Clift
  import opened Rules
  import opened Conditions
  import opened Lookup
  import opened Sites

  lemma {:induction false} FreshLabels(r: Rule, b: Block)
    requires r.Enloop? && Ok(r, b)
    ensures Labels(b) !! TagLabels(r.tag)
  {
    match b
    case Nil =>
    case Cons(a, s) =>
      FreshLabels(r, s);
      if a.Nest? { FreshLabelsIn(r, a.rs); }
  }

  lemma {:induction false} FreshLabelsIn(r: Rule, rs: Regions)
    requires r.Enloop? && OkIn(r, rs)
    ensures LabelsIn(rs) !! TagLabels(r.tag)
  {
    FreshLabels(r, rs.b);
    if rs.More? { FreshLabelsIn(r, rs.rest); }
  }

  lemma {:induction false} LabelsAppendAt(rs: Regions, i: nat, m: Block)
    ensures LabelsIn(AppendAt(rs, i, m)) <= LabelsIn(rs) + Labels(m)
  {
    LabelsApp(rs.b, m);
    if rs.More? && i > 0 { LabelsAppendAt(rs.rest, i - 1, m); }
  }

  lemma {:induction false} LabelsAppendFalling(rs: Regions, m: Block)
    ensures LabelsIn(AppendFalling(rs, m)) <= LabelsIn(rs) + Labels(m)
  {
    LabelsApp(rs.b, m);
    if rs.More? { LabelsAppendFalling(rs.rest, m); }
  }

  lemma LabelsBreakUnless(inner: nat, c: Cond, thenBreak: bool, exit: Stmt, stay: Block)
    requires exit.Jump?
    ensures LabelsOf(BreakUnless(inner, c, thenBreak, exit, stay)) == Labels(stay)
  {
    FindTwo(0, stay, Single(exit), Nil);
    FindTwo(0, Single(exit), stay, Nil);
    assert Labels(Single(exit)) == {};
  }

  lemma LabelsLoop(tag: Tag, body: Block)
    ensures LabelsOf(Nest(tag, One(body))) == TagLabels(tag) + Labels(body)
    ensures Labels(Single(Nest(tag, One(body)))) == TagLabels(tag) + Labels(body)
  {
    assert LabelsIn(One(body)) == Labels(body);
  }

  /** A replacement assigns no label that was not there, except the labels of a new loop. */
  lemma LabelsLocal(r: Rule, a: Stmt, m: Block)
    requires Site(r, a) && !a.Again? && SiteOk(r, a, m)
    ensures Labels(Local(r, a, m)) <= LabelsOf(a) + Labels(m) + (if r.Enloop? then TagLabels(r.tag) else {})
  {
    match r
    case Jumps(_) =>
    case DropLabels(_) =>
    case Sink(_, i, _) => LabelsAppendAt(a.rs, i, m);
    case Spread(_) => LabelsAppendFalling(a.rs, m);
    case Enloop(_, _, tag, leave) =>
      var body := App(m, LeaveBlock(leave));
      LabelsApp(m, LeaveBlock(leave));
      assert Labels(LeaveBlock(leave)) == {};
      LabelsLoop(tag, body);
    case Swap(_) =>
      FindTwo(0, a.rs.b, a.rs.rest.b, Nil);
      FindTwo(0, a.rs.rest.b, a.rs.b, Nil);
    case Split(_, _, _, _) => LabelsSplit(r, a);
    case BreakFirst(_, inner, n, thenBreak, exit) =>
      var i := BreakUnless(inner, a.tag.c, thenBreak, exit, Take(n, a.rs.b));
      LabelsBreakUnless(inner, a.tag.c, thenBreak, exit, Take(n, a.rs.b));
      TakeDrop(n, a.rs.b);
      LabelsApp(Take(n, a.rs.b), Drop(n, a.rs.b));
      LabelsLoop(a.tag, a.rs.b);
      LabelsLoop(While(a.tag.id, True, a.tag.brk, a.tag.cont), Cons(i, Drop(n, a.rs.b)));
    case BreakLast(_, inner, thenBreak, exit, _) =>
      var i := BreakUnless(inner, a.tag.c, thenBreak, exit, Nil);
      LabelsBreakUnless(inner, a.tag.c, thenBreak, exit, Nil);
      LabelsApp(a.rs.b, Single(i));
      assert Labels(Single(i)) == {};
      LabelsLoop(a.tag, a.rs.b);
      LabelsLoop(While(a.tag.id, True, a.tag.brk, a.tag.cont), App(a.rs.b, Single(i)));
  }

  lemma LabelsSplit(r: Rule, a: Stmt)
    requires r.Split? && Site(r, a) && SiteOk(r, a, Nil)
    ensures Labels(Local(r, a, Nil)) <= LabelsOf(a)
  {
    var x, y := a.rs.b, a.rs.rest.b;
    var deep := Nested(r.inner, a.tag.test.c.r, r.innerElse, x, r.back);
    FindTwo(0, x, y, Nil);
    FindTwo(0, Single(deep), y, Nil);
    FindTwo(0, x, r.back, Nil);
    FindTwo(0, r.back, x, Nil);
    assert Labels(r.back) == {};
    assert Labels(Single(deep)) == LabelsOf(deep);
  }

  lemma SiteOkTake(r: Rule, a: Stmt, s: Block)
    requires Site(r, a) && SiteOk(r, a, s)
    ensures SiteOk(r, a, Take(Span(r), s)) && Take(Span(r), Take(Span(r), s)) == Take(Span(r), s)
  {
    SpanFits(r, a, s);
    CleanTake(r, Span(r), s);
  }

  lemma {:induction false} DistinctApp(x: Block, y: Block)
    requires Distinct(App(x, y))
    ensures Distinct(x) && Distinct(y) && Labels(x) !! Labels(y)
  {
    LabelsApp(x, y);
    if x.Cons? {
      LabelsApp(x.tl, y);
      DistinctApp(x.tl, y);
    }
  }

  lemma ThroughOk(r: Rule, b: Block, k: Block, k2: Block)
    requires Ok(r, b) && Core(r, Apply(r, k)) == Core(r, k2)
    ensures Core(r, Apply(r, App(b, k))) == Core(r, App(Apply(r, b), k2))
  {
    ApplyApp(r, b, k);
    ApplyNoLeave(r, b);
    CoreApp(r, Apply(r, b), Apply(r, k), k2);
  }

  lemma ThroughInner(r: Rule, a: Stmt, k: Block, k2: Block)
    requires a.Nest? && !Site(r, a) && Core(r, Apply(r, k)) == Core(r, k2)
    ensures Core(r, Apply(r, Inner(a, k))) == Core(r, Inner(ApplyStmt(r, a), k2))
  {
    assert a.tag.DoWhile? ==> !Site(r, Again(a));
  }

  lemma {:induction false} FindApply(r: Rule, l: nat, b: Block, k: Block, k2: Block)
    requires Ok(r, b) && Distinct(b) && l in Labels(b) && l !in Lost(r)
    requires Core(r, Apply(r, k)) == Core(r, k2)
    ensures Agree(r, Find(l, b, k), Find(l, Apply(r, b), k2))
    decreases Size(b)
  {
    var Cons(a, s) := b;
    if Site(r, a) {
      var n := Span(r);
      var m, rest := Take(n, s), Drop(n, s);
      SpanFits(r, a, s);
      SiteOkTake(r, a, s);
      TakeDrop(n, s);
      SizeDrop(n, s);
      OkDrop(r, n, s);
      assert b == App(Cons(a, m), rest);
      DistinctApp(Cons(a, m), rest);
      LabelsApp(Cons(a, m), rest);
      LabelsLocal(r, a, m);
      if r.Enloop? { FreshLabels(r, b); }
      var k3 := App(Apply(r, rest), k2);
      FindApp(l, Cons(a, m), rest, k);
      FindApp(l, Local(r, a, m), Apply(r, rest), k2);
      FindLabel(l, Cons(a, m), App(rest, k));
      FindLabel(l, Local(r, a, m), k3);
      ThroughOk(r, rest, k, k2);
      if l in Labels(Cons(a, m)) {
        FindSite(r, l, a, m, App(rest, k), k3);
      } else {
        FindApply(r, l, rest, k, k2);
      }
    } else {
      FindApplyPlain(r, l, b, k, k2);
    }
  }

  lemma {:induction false} FindApplyPlain(r: Rule, l: nat, b: Block, k: Block, k2: Block)
    requires Ok(r, b) && Distinct(b) && l in Labels(b) && l !in Lost(r) && !Site(r, b.hd)
    requires Core(r, Apply(r, k)) == Core(r, k2)
    ensures Agree(r, Find(l, b, k), Find(l, Apply(r, b), k2))
    decreases Size(b), 0
  {
    var Cons(a, s) := b;
    var a2 := ApplyStmt(r, a);
    ThroughOk(r, s, k, k2);
    if a == Label(l) {
      ThroughOk(r, b, k, k2);
    } else if a.Nest? && l in TagLabels(a.tag) {
      ThroughInner(r, a, App(s, k), App(Apply(r, s), k2));
      assert Keep(r, BreakLabel(a.tag)) == Some(l) <==> BreakLabel(a.tag) == Some(l);
    } else if a.Nest? {
      FindApplyNest(r, l, b, k, k2);
    } else {
      FindApply(r, l, s, k, k2);
    }
  }

  lemma {:induction false} FindApplyNest(r: Rule, l: nat, b: Block, k: Block, k2: Block)
    requires Ok(r, b) && Distinct(b) && l in Labels(b) && l !in Lost(r) && !Site(r, b.hd)
    requires Core(r, Apply(r, k)) == Core(r, k2) && b.hd.Nest? && l !in TagLabels(b.hd.tag)
    ensures Agree(r, Find(l, b, k), Find(l, Apply(r, b), k2))
    decreases Size(b), 0, 0
  {
    var Cons(a, s) := b;
    var a2 := ApplyStmt(r, a);
    var k1, k3 := App(s, k), App(Apply(r, s), k2);
    FindOne(l, a, s, k);
    FindOne(l, a2, Apply(r, s), k2);
    assert Size(b) == 1 + SizeOf(a) + Size(s) && SizeOf(a) == 1 + SizeIn(a.rs);
    FindLabelIn(l, a.rs, Inner(a, k1));
    if l in LabelsIn(a.rs) {
      ThroughOk(r, s, k, k2);
      ThroughInner(r, a, k1, k3);
      FindApplyIn(r, l, a.rs, Inner(a, k1), Inner(a2, k3));
    } else {
      LabelsApplyIn(r, a.rs);
      FindLabelIn(l, a2.rs, Inner(a2, k3));
      if r.Enloop? { FreshLabels(r, s); }
      FindApply(r, l, s, k, k2);
    }
  }

  lemma {:induction false} FindApplyIn(r: Rule, l: nat, rs: Regions, k: Block, k2: Block)
    requires OkIn(r, rs) && DistinctIn(rs) && l in LabelsIn(rs) && l !in Lost(r)
    requires Core(r, Apply(r, k)) == Core(r, k2)
    ensures Agree(r, FindIn(l, rs, k), FindIn(l, ApplyIn(r, rs), k2))
    decreases SizeIn(rs)
  {
    FindLabel(l, rs.b, k);
    if l in Labels(rs.b) {
      FindApply(r, l, rs.b, k, k2);
    } else {
      LabelsApply(r, rs.b);
      FindLabel(l, Apply(r, rs.b), k2);
      if r.Enloop? { FreshLabelsIn(r, rs); }
      FindApplyIn(r, l, rs.rest, k, k2);
    }
  }

  /** Rewriting assigns no other labels. */
  lemma LabelsAtSite(r: Rule, a: Stmt, s: Block)
    requires Ok(r, Cons(a, s)) && Site(r, a)
    requires var rest := Drop(Span(r), s);
             Labels(Apply(r, rest)) <= Labels(rest) + (if r.Enloop? then TagLabels(r.tag) else {})
    ensures Labels(Apply(r, Cons(a, s))) <= Labels(Cons(a, s)) + (if r.Enloop? then TagLabels(r.tag) else {})
  {
    var n := Span(r);
    SpanFits(r, a, s);
    SiteOkTake(r, a, s);
    TakeDrop(n, s);
    LabelsApp(Take(n, s), Drop(n, s));
    LabelsLocal(r, a, Take(n, s));
    LabelsApp(Local(r, a, Take(n, s)), Apply(r, Drop(n, s)));
  }

  lemma {:induction false} LabelsApply(r: Rule, b: Block)
    requires Ok(r, b)
    ensures Labels(Apply(r, b)) <= Labels(b) + (if r.Enloop? then TagLabels(r.tag) else {})
    decreases Size(b)
  {
    match b
    case Nil =>
    case Cons(a, s) =>
      if Site(r, a) {
        SizeDrop(Span(r), s);
        OkDrop(r, Span(r), s);
        LabelsApply(r, Drop(Span(r), s));
        LabelsAtSite(r, a, s);
      } else {
        LabelsApply(r, s);
        if a.Nest? {
          assert SizeOf(a) == 1 + SizeIn(a.rs);
          LabelsApplyIn(r, a.rs);
        }
      }
  }

  lemma {:induction false} LabelsApplyIn(r: Rule, rs: Regions)
    requires OkIn(r, rs)
    ensures LabelsIn(ApplyIn(r, rs)) <= LabelsIn(rs) + (if r.Enloop? then TagLabels(r.tag) else {})
    decreases SizeIn(rs)
  {
    LabelsApply(r, rs.b);
    if rs.More? { LabelsApplyIn(r, rs.rest); }
  }
}
