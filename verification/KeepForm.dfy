/** The rules that work forwards keep programs well formed, so passes can be chained. */
module KeepForm {
  import opened Clift
  import opened Rules
  import opened Conditions
  import opened Lookup
  import opened LabelLaws
  import opened Preserve
  import opened Steps
  import opened WellFormed
  import opened InPlace

  predicate Forward(r: Rule) { r.Sink? || r.Spread? || r.Swap? || r.DropLabels? }

  lemma {:induction false} OpsAppendAt(rs: Regions, i: nat, m: Block)
    ensures OpsIn(AppendAt(rs, i, m)) <= OpsIn(rs) + Ops(m)
    ensures TargetsIn(AppendAt(rs, i, m)) <= TargetsIn(rs) + Targets(m)
    ensures DistinctOpsIn(rs) && DistinctOps(m) && OpsIn(rs) !! Ops(m) ==> DistinctOpsIn(AppendAt(rs, i, m))
  {
    OpsApp(rs.b, m);
    if DistinctOps(rs.b) && DistinctOps(m) && Ops(rs.b) !! Ops(m) { DistinctOpsJoin(rs.b, m); }
    if rs.More? && i > 0 { OpsAppendAt(rs.rest, i - 1, m); }
  }

  lemma {:induction false} OpsAppendFalling(rs: Regions, m: Block)
    requires Ops(m) == {} && DistinctOps(m)
    ensures OpsIn(AppendFalling(rs, m)) <= OpsIn(rs) && TargetsIn(AppendFalling(rs, m)) <= TargetsIn(rs) + Targets(m)
    ensures DistinctOpsIn(rs) ==> DistinctOpsIn(AppendFalling(rs, m))
  {
    OpsApp(rs.b, m);
    if DistinctOps(rs.b) { DistinctOpsJoin(rs.b, m); }
    if rs.More? { OpsAppendFalling(rs.rest, m); }
  }

  lemma OpsTwo(x: Block, y: Block)
    ensures OpsIn(More(x, One(y))) == Ops(x) + Ops(y) && TargetsIn(More(x, One(y))) == Targets(x) + Targets(y)
    ensures DistinctOpsIn(More(x, One(y))) <==> DistinctOps(x) && DistinctOps(y) && Ops(x) !! Ops(y)
  {}

  lemma OpsLocal(r: Rule, a: Stmt, m: Block)
    requires Forward(r) && Site(r, a) && SiteOk(r, a, m) && m == Take(Span(r), m) && DistinctOps(Cons(a, m))
    ensures var b := Local(r, a, m);
            DistinctOps(b) && Ops(b) <= OpsOf(a) + Ops(m) && Targets(b) <= TargetsOf(a) + Targets(m)
  {
    match r
    case Sink(_, i, _) => OpsAppendAt(a.rs, i, m);
    case Spread(_) =>
      assert m == Cons(m.hd, Take(0, m.tl)) == Single(m.hd);
      assert Ops(m) == OpsOf(m.hd) + Ops(Nil);
      OpsAppendFalling(a.rs, m);
    case Swap(_) =>
      OpsTwo(a.rs.b, a.rs.rest.b);
      OpsTwo(a.rs.rest.b, a.rs.b);
    case _ =>
  }

  /** The statement at a site, if the block behind it is kept. */
  lemma OpsAtSite(r: Rule, a: Stmt, s: Block)
    requires Forward(r) && Ok(r, Cons(a, s)) && DistinctOps(Cons(a, s)) && Site(r, a)
    requires var rest, c := Drop(Span(r), s), Apply(r, Drop(Span(r), s));
             DistinctOps(c) && Ops(c) <= Ops(rest) && Targets(c) <= Targets(rest)
    ensures var c := Apply(r, Cons(a, s));
            DistinctOps(c) && Ops(c) <= Ops(Cons(a, s)) && Targets(c) <= Targets(Cons(a, s))
  {
    var n := Span(r);
    var m, rest := Take(n, s), Drop(n, s);
    SiteOkTake(r, a, s);
    TakeDrop(n, s);
    OpsApp(m, rest);
    DistinctOpsSplit(m, rest);
    OpsLocal(r, a, m);
    OpsApp(Local(r, a, m), Apply(r, rest));
    DistinctOpsJoin(Local(r, a, m), Apply(r, rest));
  }

  lemma {:induction false} OpsApply(r: Rule, b: Block)
    requires Forward(r) && Ok(r, b) && DistinctOps(b)
    ensures var c := Apply(r, b); DistinctOps(c) && Ops(c) <= Ops(b) && Targets(c) <= Targets(b)
    decreases Size(b)
  {
    match b
    case Nil =>
    case Cons(a, s) =>
      if Site(r, a) {
        var n := Span(r);
        TakeDrop(n, s);
        SizeDrop(n, s);
        OkDrop(r, n, s);
        DistinctOpsSplit(Take(n, s), Drop(n, s));
        OpsApply(r, Drop(n, s));
        OpsAtSite(r, a, s);
      } else {
        OpsApply(r, s);
        if a.Nest? {
          assert SizeOf(a) == 1 + SizeIn(a.rs);
          OpsApplyIn(r, a.rs);
          assert TagId(Retag(r, a.tag)) == TagId(a.tag);
        }
      }
  }

  lemma {:induction false} OpsApplyIn(r: Rule, rs: Regions)
    requires Forward(r) && OkIn(r, rs) && DistinctOpsIn(rs)
    ensures var t := ApplyIn(r, rs); DistinctOpsIn(t) && OpsIn(t) <= OpsIn(rs) && TargetsIn(t) <= TargetsIn(rs)
    decreases SizeIn(rs)
  {
    OpsApply(r, rs.b);
    if rs.More? { OpsApplyIn(r, rs.rest); }
  }

  lemma {:induction false} DistinctOpsSplit(x: Block, y: Block)
    requires DistinctOps(App(x, y))
    ensures DistinctOps(x) && DistinctOps(y) && Ops(x) !! Ops(y)
  {
    OpsApp(x, y);
    if x.Cons? {
      OpsApp(x.tl, y);
      DistinctOpsSplit(x.tl, y);
    }
  }

  /** Every label that is not given up stays assigned. */
  lemma LabelsKept(r: Rule, p: Block)
    requires Good(r, p)
    ensures Labels(p) - Lost(r) <= Labels(Apply(r, p))
  {
    forall l | l in Labels(p) && l !in Lost(r)
      ensures l in Labels(Apply(r, p))
    {
      FindApply(r, l, p, Nil, Nil);
      FindLabel(l, Apply(r, p), Nil);
    }
  }

  lemma ForwardKeeps(r: Rule, p: Block)
    requires WF(p) && Forward(r) && Ok(r, p) && Targets(p) !! Lost(r)
    ensures Good(r, p) && WF(Apply(r, p))
  {
    SaneSets(r, p, p, Nil);
    PlainApply(r, p);
    DistinctApply(r, p);
    OpsApply(r, p);
    LabelsKept(r, p);
  }
}
