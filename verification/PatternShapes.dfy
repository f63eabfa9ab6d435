/** What the patterns make of an operation and of the code behind it. */
module PatternShapes {
  import opened Wrappers
  import opened Clift
  import opened Static
  import opened Rules
  import opened Conditions
  import opened WellFormed
  import opened InPlace
  import opened KeepForm
  import opened Branches
  import opened LoopConditions
  import opened Positions
  import opened JumpLaws
  import opened NamedJumps

  /** The result stands where the operation stood. */
  lemma {:induction false} SeekApplied(r: Rule, b: Block)
    requires Single?(r) && Plain(b) && DistinctOps(b) && Seek(r.id, b).Some? && Seek(r.id, b).value.Cons?
    requires var f := Seek(r.id, b).value;
             Site(r, f.hd) && var y := Local(r, f.hd, Take(Span(r), f.tl)); y.Cons? && Named(y.hd, r.id)
    ensures var f := Seek(r.id, b).value;
            Seek(r.id, Apply(r, b)) == Some(App(Local(r, f.hd, Take(Span(r), f.tl)), Drop(Span(r), f.tl)))
  {
    var Cons(a, s) := b;
    SeekOps(r.id, b);
    if a.Nest? { SeekOpsIn(r.id, a.rs); }
    SeekOps(r.id, s);
    if Named(a, r.id) {
      CleanAbsent(r, s);
      CleanRest(r, Span(r), s);
      ApplyClean(r, Drop(Span(r), s), Nil);
    } else if a.Nest? && SeekIn(r.id, a.rs).Some? {
      SeekAppliedIn(r, a.rs);
    } else {
      SeekApplied(r, s);
      if a.Nest? {
        CleanAbsentIn(r, a.rs);
        ApplyCleanIn(r, a.rs);
      }
    }
  }

  lemma {:induction false} SeekAppliedIn(r: Rule, rs: Regions)
    requires Single?(r) && PlainIn(rs) && DistinctOpsIn(rs) && SeekIn(r.id, rs).Some? && SeekIn(r.id, rs).value.Cons?
    requires var f := SeekIn(r.id, rs).value;
             Site(r, f.hd) && var y := Local(r, f.hd, Take(Span(r), f.tl)); y.Cons? && Named(y.hd, r.id)
    ensures var f := SeekIn(r.id, rs).value;
            SeekIn(r.id, ApplyIn(r, rs)) == Some(App(Local(r, f.hd, Take(Span(r), f.tl)), Drop(Span(r), f.tl)))
  {
    SeekOps(r.id, rs.b);
    if Seek(r.id, rs.b).Some? {
      SeekApplied(r, rs.b);
    } else {
      CleanAbsent(r, rs.b);
      ApplyClean(r, rs.b, Nil);
      SeekAppliedIn(r, rs.rest);
    }
  }

  lemma {:induction false} CleanRest(r: Rule, n: nat, s: Block)
    requires Clean(r, s)
    ensures Clean(r, Drop(n, s))
  {
    if n > 0 && s.Cons? { CleanRest(r, n - 1, s.tl); }
  }

  // ----- regions -----

  lemma {:induction false} AppendedAt(rs: Regions, i: nat, m: Block, j: nat)
    requires i < Count(rs) && j < Count(rs)
    ensures Count(AppendAt(rs, i, m)) == Count(rs)
    ensures Nth(AppendAt(rs, i, m), j) == if j == i then App(Nth(rs, j), m) else Nth(rs, j)
  {
    if rs.More? && i > 0 { AppendedAt(rs.rest, i - 1, m, if j > 0 then j - 1 else 0); }
  }

  lemma {:induction false} AppendedFalling(rs: Regions, m: Block, j: nat)
    requires j < Count(rs)
    ensures Count(AppendFalling(rs, m)) == Count(rs)
    ensures Nth(AppendFalling(rs, m), j) == if Falls(rs, j) then App(Nth(rs, j), m) else Nth(rs, j)
  {
    if rs.More? { AppendedFalling(rs.rest, m, if j > 0 then j - 1 else 0); }
  }

  /** The branch `id` of `q` is that of `p`, with `rest` behind it. */
  predicate SameBranch(p: Block, q: Block, id: nat, rest: Block)
    requires HasBranch(p, id)
  {
    && HasBranch(q, id) && Op(q, id).tag == Op(p, id).tag && Count(Op(q, id).rs) == Count(Op(p, id).rs)
    && Behind(q, id) == rest
  }

  // ----- the patterns -----

  /** Everything before the trailing labels stands at the end of region `i`, the labels behind the branch. */
  lemma EqualizedShape(p: Block, id: nat, i: nat)
    requires WF(p) && HasBranch(p, id) && i < Count(Op(p, id).rs)
    ensures var n := Hoistable(Behind(p, id));
            var q := Apply(Sink(id, i, n), p);
            && SameBranch(p, q, id, Drop(n, Behind(p, id)))
            && forall j: nat :: j < Count(Op(p, id).rs) ==>
                 Nth(Op(q, id).rs, j) ==
                   if j == i then App(Nth(Op(p, id).rs, j), Take(n, Behind(p, id))) else Nth(Op(p, id).rs, j)
  {
    var a, n := Op(p, id), Hoistable(Behind(p, id));
    var m, rest := Take(n, Behind(p, id)), Drop(n, Behind(p, id));
    SeekApplied(Sink(id, i, n), p);
    Alone(Nest(a.tag, AppendAt(a.rs, i, m)), rest);
    AppendedAt(a.rs, i, m, 0);
    forall j: nat | j < Count(a.rs)
      ensures Nth(AppendAt(a.rs, i, m), j) == if j == i then App(Nth(a.rs, j), m) else Nth(a.rs, j)
    {
      AppendedAt(a.rs, i, m, j);
    }
  }

  lemma Alone(a: Stmt, s: Block)
    ensures App(Single(a), s) == Cons(a, s)
  {
    assert App(Single(a), s) == Cons(a, App(Nil, s));
  }

  /** The jump behind the branch stands at the end of every region that fell through, and nothing else does. */
  lemma DuplicatedShape(p: Block, id: nat)
    requires WF(p) && HasBranch(p, id) && Behind(p, id).Cons? && Behind(p, id).tl == Nil
    ensures var q := Apply(Spread(id), p);
            && SameBranch(p, q, id, Nil)
            && forall j: nat :: j < Count(Op(p, id).rs) ==>
                 Nth(Op(q, id).rs, j) ==
                   if Falls(Op(p, id).rs, j) then App(Nth(Op(p, id).rs, j), Behind(p, id)) else Nth(Op(p, id).rs, j)
  {
    var a, m := Op(p, id), Behind(p, id);
    TakeLen(m);
    SeekApplied(Spread(id), p);
    Alone(Nest(a.tag, AppendFalling(a.rs, m)), Nil);
    AppendedFalling(a.rs, m, 0);
    forall j: nat | j < Count(a.rs)
      ensures Nth(AppendFalling(a.rs, m), j) == if Falls(a.rs, j) then App(Nth(a.rs, j), m) else Nth(a.rs, j)
    {
      AppendedFalling(a.rs, m, j);
    }
  }

  /** The condition is negated and the regions are swapped. */
  lemma InvertedShape(p: Block, id: nat)
    requires WF(p) && HasBranch(p, id) && TwoWay(Op(p, id))
    ensures var a, q := Op(p, id), Apply(Swap(id), p);
            && HasBranch(q, id) && Behind(q, id) == Behind(p, id)
            && Op(q, id) == Nest(Branch(id, If(Not(a.tag.test.c))), More(Nth(a.rs, 1), One(Nth(a.rs, 0))))
  {
    var a := Op(p, id);
    SeekApplied(Swap(id), p);
    assert Take(0, Behind(p, id)) == Nil && Drop(0, Behind(p, id)) == Behind(p, id);
    Alone(Nest(Branch(id, If(Not(a.tag.test.c))), More(Nth(a.rs, 1), One(Nth(a.rs, 0)))), Behind(p, id));
  }

  lemma {:induction false} EmptiedRegion(rs: Regions, i: nat, j: nat)
    requires i < Count(rs) && j < Count(rs)
    ensures Count(SetRegion(rs, i, Nil)) == Count(rs)
    ensures Nth(SetRegion(rs, i, Nil), j) == if j == i then Nil else Nth(rs, j)
  {
    if rs.More? && i > 0 { EmptiedRegion(rs.rest, i - 1, if j > 0 then j - 1 else 0); }
  }

  lemma HoistFits(p: Block, id: nat, i: nat)
    requires WF(p) && HasBranch(p, id) && i < Count(Op(p, id).rs)
    ensures var a := Op(p, id); Fits(id, a, Cons(Nest(a.tag, SetRegion(a.rs, i, Nil)), Nth(a.rs, i)))
  {
    var a := Op(p, id);
    SeekFacts(id, p);
    SetRegionFacts(a.rs, i);
    NestSets(a.tag, a.rs, Nil);
    NestSets(a.tag, SetRegion(a.rs, i, Nil), Nth(a.rs, i));
  }

  /** Region `i` stands behind the branch and is empty in it.  If it was the then-region of an if, the condition is
      negated and the old else-region is the then-region now, so that the then-region is not the empty one. */
  lemma HoistedShape(p: Block, id: nat, i: nat)
    requires WF(p) && HasBranch(p, id) && i < Count(Op(p, id).rs)
    requires Op(p, id).tag.test.If? ==> TwoWay(Op(p, id))
    ensures var a, q := Op(p, id), Hoist(p, id, i);
            && HasBranch(q, id) && Behind(q, id) == App(Nth(a.rs, i), Behind(p, id))
            && (a.tag.test.If? && i == 0 ==>
                  Op(q, id) == Nest(Branch(id, If(Not(a.tag.test.c))), More(Nth(a.rs, 1), One(Nil))))
            && (!(a.tag.test.If? && i == 0) ==>
                  && Op(q, id).tag == a.tag && Count(Op(q, id).rs) == Count(a.rs)
                  && forall j: nat :: j < Count(a.rs) ==> Nth(Op(q, id).rs, j) == if j == i then Nil else Nth(a.rs, j))
  {
    var a := Op(p, id);
    var ts := SetRegion(a.rs, i, Nil);
    var y := Cons(Nest(a.tag, ts), Nth(a.rs, i));
    HoistFits(p, id, i);
    PutShape(id, y, p);
    var q := Put(id, y, p);
    EmptiedRegion(a.rs, i, 0);
    forall j: nat | j < Count(a.rs) ensures Nth(ts, j) == if j == i then Nil else Nth(a.rs, j) {
      EmptiedRegion(a.rs, i, j);
    }
    if a.tag.test.If? && i == 0 {
      SeekApplied(Swap(id), q);
      assert Take(0, Behind(q, id)) == Nil && Drop(0, Behind(q, id)) == Behind(q, id);
      Alone(Nest(Branch(id, If(Not(a.tag.test.c))), More(Nth(ts, 1), One(Nth(ts, 0)))), Behind(q, id));
    }
  }

  // ----- operations that disappear -----

  /** Replacing an operation takes everything in it away. */
  lemma {:induction false} PutOps(id: nat, y: Block, b: Block)
    requires Plain(b) && DistinctOps(b) && Seek(id, b).Some? && Seek(id, b).value.Cons?
    ensures Ops(Put(id, y, b)) == Ops(b) - OpsOf(Seek(id, b).value.hd) + Ops(y)
    ensures OpsOf(Seek(id, b).value.hd) <= Ops(b)
  {
    var Cons(a, s) := b;
    SeekOps(id, b);
    if Named(a, id) {
      OpsApp(y, s);
    } else {
      if a.Nest? { SeekOpsIn(id, a.rs); }
      if a.Nest? && SeekIn(id, a.rs).Some? {
        PutOpsIn(id, y, a.rs);
        PutAbsent(id, y, s);
        NestSets(a.tag, a.rs, s);
        NestSets(a.tag, PutIn(id, y, a.rs), s);
      } else {
        PutOps(id, y, s);
        SeekOps(id, s);
        if a.Nest? { PutAbsentIn(id, y, a.rs); }
        assert Put(id, y, b) == Cons(a, Put(id, y, s));
        assert Ops(Put(id, y, b)) == OpsOf(a) + Ops(Put(id, y, s)) && Ops(b) == OpsOf(a) + Ops(s);
      }
    }
  }

  lemma {:induction false} PutOpsIn(id: nat, y: Block, rs: Regions)
    requires PlainIn(rs) && DistinctOpsIn(rs) && SeekIn(id, rs).Some? && SeekIn(id, rs).value.Cons?
    ensures OpsIn(PutIn(id, y, rs)) == OpsIn(rs) - OpsOf(SeekIn(id, rs).value.hd) + Ops(y)
    ensures OpsOf(SeekIn(id, rs).value.hd) <= OpsIn(rs)
  {
    SeekOps(id, rs.b);
    if Seek(id, rs.b).Some? {
      PutOps(id, y, rs.b);
      if rs.More? { PutAbsentIn(id, y, rs.rest); }
    } else {
      PutAbsent(id, y, rs.b);
      PutOpsIn(id, y, rs.rest);
    }
  }

  /** The nested if is gone, and the outer one tests the conjunction; the and-then code is its then-region. */
  lemma CombinedShape(p: Block, id: nat, inner: Stmt, innerElse: bool)
    requires WF(p) && HasBranch(p, id) && Nests(Op(p, id), inner, false, innerElse)
    ensures var a, q := Op(p, id), Put(id, Single(Merged(Op(p, id), inner, false, innerElse)), p);
            && HasBranch(q, id) && Behind(q, id) == Behind(p, id) && inner.tag.id !in Ops(q)
            && Op(q, id).tag.test
               == If(And(a.tag.test.c, if innerElse then Not(inner.tag.test.c) else inner.tag.test.c))
            && Op(q, id).rs == More(Nth(inner.rs, if innerElse then 1 else 0), One(Nth(a.rs, 1)))
  {
    var a := Op(p, id);
    var m := Merged(a, inner, false, innerElse);
    SeekFacts(id, p);
    MergedFits(p, id, inner, innerElse);
    PutShape(id, Single(m), p);
    Alone(m, Behind(p, id));
    PutOps(id, Single(m), p);
    assert a.rs == More(Single(inner), One(a.rs.rest.b)) && inner.rs == More(inner.rs.b, One(inner.rs.rest.b));
    InnerGone(a, inner, m);
  }

  lemma InnerGone(a: Stmt, inner: Stmt, m: Stmt)
    requires a.Nest? && a.tag.Branch? && DistinctOpsOf(a) && m.Nest? && m.tag.Branch? && m.tag.id == a.tag.id
    requires inner.Nest? && inner.tag.Branch? && inner.rs.More? && inner.rs.rest.One?
    requires a.rs.More? && a.rs.b == Single(inner) && a.rs.rest.One?
    requires m.rs.More? && m.rs.rest == a.rs.rest && (m.rs.b == inner.rs.b || m.rs.b == inner.rs.rest.b)
    ensures inner.tag.id in OpsOf(a) && inner.tag.id !in Ops(Single(m))
  {
    OpsTwo(Single(inner), a.rs.rest.b);
    OpsTwo(inner.rs.b, inner.rs.rest.b);
    OpsTwo(m.rs.b, a.rs.rest.b);
    NestSets(inner.tag, inner.rs, Nil);
    NestSets(m.tag, m.rs, Nil);
    NestSets(a.tag, a.rs, Nil);
  }

  /** The loop tests the condition under which it went on, and the if with the break is gone. */
  lemma WhileShape(p: Block, id: nat, i: Stmt, thenBreak: bool)
    requires WF(p) && HasEndless(p, id) && LeadingBreak(Op(p, id), i, thenBreak)
    ensures var a, q := Op(p, id), Put(id, Single(Promoted(Op(p, id), i, thenBreak)), p);
            && Seek(id, q).Some? && Seek(id, q).value.Cons? && Behind(q, id) == Behind(p, id) && i.tag.id !in Ops(q)
            && Op(q, id) == Nest(While(id, if thenBreak then Not(i.tag.test.c) else i.tag.test.c, a.tag.brk,
                                       a.tag.cont), One(App(Nth(i.rs, if thenBreak then 1 else 0), a.rs.b.tl)))
  {
    var a := Op(p, id);
    var m := Promoted(a, i, thenBreak);
    SeekFacts(id, p);
    PromotedFits(p, id, i, thenBreak);
    PutShape(id, Single(m), p);
    Alone(m, Behind(p, id));
    PutOps(id, Single(m), p);
    LoopSets(a.tag, a.rs.b);
    LoopSets(m.tag, m.rs.b);
    OpsApp(StaySide(i, thenBreak), a.rs.b.tl);
    SideSets(i, thenBreak);
    assert a.rs.b == Cons(i, a.rs.b.tl) && Ops(a.rs.b) == OpsOf(i) + Ops(a.rs.b.tl);
    TestGone(i, StaySide(i, thenBreak));
  }

  lemma TestGone(i: Stmt, x: Block)
    requires TwoWay(i) && DistinctOpsOf(i) && (x == i.rs.b || x == i.rs.rest.b)
    ensures i.tag.id !in Ops(x)
  {
    assert i.rs == More(i.rs.b, One(i.rs.rest.b));
    OpsTwo(i.rs.b, i.rs.rest.b);
  }

  /** The loop is a do-while that tests the condition under which it went on, and the if with the break is gone. */
  lemma DoWhileShape(p: Block, id: nat, x: Block, i: Stmt, thenBreak: bool)
    requires WF(p) && HasEndless(p, id) && TrailingBreak(Op(p, id), x, i, thenBreak)
    ensures var a, q := Op(p, id), Put(id, Single(DoPromoted(Op(p, id), x, i, thenBreak)), p);
            && Seek(id, q).Some? && Seek(id, q).value.Cons? && Behind(q, id) == Behind(p, id) && i.tag.id !in Ops(q)
            && Op(q, id) == Nest(DoWhile(id, if thenBreak then Not(i.tag.test.c) else i.tag.test.c, a.tag.brk,
                                         a.tag.cont), One(x))
  {
    var a := Op(p, id);
    var m := DoPromoted(a, x, i, thenBreak);
    SeekFacts(id, p);
    DoPromotedFits(p, id, x, i, thenBreak);
    PutShape(id, Single(m), p);
    Alone(m, Behind(p, id));
    PutOps(id, Single(m), p);
    LoopSets(a.tag, a.rs.b);
    LoopSets(m.tag, x);
    OpsApp(x, Single(i));
    DistinctOpsSplit(x, Single(i));
    assert Ops(Single(i)) == OpsOf(i) + Ops(Nil);
  }

  /** Exactly the trivial jumps are gone. */
  lemma ErasedShape(p: Block, names: set<nat>, id: nat)
    requires Plain(p)
    ensures id in Names(Apply(EraseAll(names), p)) <==> id in Names(p) && id !in names
  {
    var r := EraseAll(names);
    NamesAreIds(p);
    NamesAreIds(Apply(r, p));
    JumpsForm(r, p);
    if id in names {
      ErasedGone(r, p, id);
    } else if id in Names(p) {
      var j :| j in AllJumps(p) && j.id == id;
      JumpsAfter(r, p, j);
    }
  }
}
