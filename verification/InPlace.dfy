/** Replacing one operation of a program, justified by the rule that undoes the replacement. */
module InPlace {
  import opened Wrappers
  import opened Clift
  import opened Static
  import opened Rules
  import opened Conditions
  import opened Lookup
  import opened Sites
  import opened Preserve
  import opened Places
  import opened WellFormed

  /** The program with operation `id` replaced by the statements `y`. */
  function Put(id: nat, y: Block, b: Block): Block {
    match b
    case Nil => Nil
    case Cons(a, s) => if Named(a, id) then App(y, s) else Cons(PutStmt(id, y, a), Put(id, y, s))
  }

  function PutStmt(id: nat, y: Block, a: Stmt): Stmt {
    match a case Nest(tag, rs) => Nest(tag, PutIn(id, y, rs)) case _ => a
  }

  function PutIn(id: nat, y: Block, rs: Regions): Regions {
    match rs case One(b) => One(Put(id, y, b)) case More(b, r) => More(Put(id, y, b), PutIn(id, y, r))
  }

  lemma {:induction false} OpsApp(x: Block, y: Block)
    ensures Ops(App(x, y)) == Ops(x) + Ops(y) && Targets(App(x, y)) == Targets(x) + Targets(y)
  {
    if x.Cons? { OpsApp(x.tl, y); }
  }

  lemma {:induction false} DistinctOpsJoin(x: Block, y: Block)
    requires DistinctOps(x) && DistinctOps(y) && Ops(x) !! Ops(y)
    ensures DistinctOps(App(x, y))
  {
    if x.Cons? {
      OpsApp(x.tl, y);
      DistinctOpsJoin(x.tl, y);
    }
  }

  lemma {:induction false} PutAbsent(id: nat, y: Block, b: Block)
    requires id !in Ops(b)
    ensures Put(id, y, b) == b
  {
    if b.Cons? {
      PutAbsent(id, y, b.tl);
      if b.hd.Nest? { PutAbsentIn(id, y, b.hd.rs); }
    }
  }

  lemma {:induction false} PutAbsentIn(id: nat, y: Block, rs: Regions)
    requires id !in OpsIn(rs)
    ensures PutIn(id, y, rs) == rs
  {
    PutAbsent(id, y, rs.b);
    if rs.More? { PutAbsentIn(id, y, rs.rest); }
  }

  /** The replacement brings no new label, operation or jump target. */
  predicate Fits(id: nat, a: Stmt, y: Block) {
    && Named(a, id) && y.Cons? && Named(y.hd, id) && Plain(y) && Distinct(y) && DistinctOps(y)
    && Labels(y) == LabelsOf(a) && Ops(y) <= OpsOf(a) && Targets(y) <= TargetsOf(a)
  }

  predicate Shape(b: Block, c: Block) {
    && Plain(c) && Distinct(c) && DistinctOps(c)
    && Labels(c) == Labels(b) && Ops(c) <= Ops(b) && Targets(c) <= Targets(b)
  }

  predicate ShapeIn(rs: Regions, ts: Regions) {
    && PlainIn(ts) && DistinctIn(ts) && DistinctOpsIn(ts)
    && LabelsIn(ts) == LabelsIn(rs) && OpsIn(ts) <= OpsIn(rs) && TargetsIn(ts) <= TargetsIn(rs)
  }

  lemma {:induction false} PutShape(id: nat, y: Block, b: Block)
    requires Plain(b) && Distinct(b) && DistinctOps(b)
    requires Seek(id, b).Some? && Seek(id, b).value.Cons? && Fits(id, Seek(id, b).value.hd, y)
    ensures Shape(b, Put(id, y, b))
    ensures Seek(id, Put(id, y, b)) == Some(App(y, Seek(id, b).value.tl))
  {
    var Cons(a, s) := b;
    if Named(a, id) {
      PlainApp(y, s);
      DistinctJoin(y, s);
      DistinctOpsJoin(y, s);
      LabelsApp(y, s);
      OpsApp(y, s);
    } else {
      if a.Nest? { SeekOpsIn(id, a.rs); }
      if a.Nest? && SeekIn(id, a.rs).Some? {
        PutShapeIn(id, y, a.rs);
        SeekOps(id, b);
        PutAbsent(id, y, s);
      } else {
        PutShape(id, y, s);
        SeekOps(id, s);
        if a.Nest? { PutAbsentIn(id, y, a.rs); }
      }
    }
  }

  lemma {:induction false} PutShapeIn(id: nat, y: Block, rs: Regions)
    requires PlainIn(rs) && DistinctIn(rs) && DistinctOpsIn(rs)
    requires SeekIn(id, rs).Some? && SeekIn(id, rs).value.Cons? && Fits(id, SeekIn(id, rs).value.hd, y)
    ensures ShapeIn(rs, PutIn(id, y, rs))
    ensures SeekIn(id, PutIn(id, y, rs)) == Some(App(y, SeekIn(id, rs).value.tl))
  {
    SeekOps(id, rs.b);
    if Seek(id, rs.b).Some? {
      PutShape(id, y, rs.b);
      if rs.More? { PutAbsentIn(id, y, rs.rest); }
    } else {
      PutAbsent(id, y, rs.b);
      PutShapeIn(id, y, rs.rest);
    }
  }

  // ----- undoing -----

  /** Rule `r` turns the replacement `y` back into the statement `a`. */
  ghost predicate Undoes(r: Rule, y: Block, a: Stmt) {
    && Single?(r) && y.Cons? && Named(y.hd, r.id) && Site(r, y.hd) && Span(r) == Len(y.tl) && r.id !in Ops(y.tl)
    && Local(r, y.hd, y.tl) == Single(a) && SiteOk(r, y.hd, y.tl)
  }

  lemma {:induction false} ApplyAbsent(r: Rule, b: Block)
    requires Single?(r) && r.id !in Ops(b) && Plain(b)
    ensures Apply(r, b) == b
  {
    CleanAbsent(r, b);
    ApplyClean(r, b, Nil);
  }

  lemma {:induction false} TakeLen(x: Block)
    ensures Take(Len(x), x) == x && Drop(Len(x), x) == Nil
  {
    if x.Cons? { TakeLen(x.tl); }
  }

  lemma {:induction false} PutUndone(r: Rule, y: Block, b: Block)
    requires Single?(r) && Plain(b) && DistinctOps(b) && Seek(r.id, b).Some? && Seek(r.id, b).value.Cons?
    requires Undoes(r, y, Seek(r.id, b).value.hd)
    ensures Apply(r, Put(r.id, y, b)) == b
  {
    var id := r.id;
    var Cons(a, s) := b;
    SeekOps(id, b);
    if Named(a, id) {
      var n := Span(r);
      TakeLen(y.tl);
      TakeDropApp(n, y.tl, s);
      ApplyAbsent(r, s);
      assert App(y, s) == Cons(y.hd, App(y.tl, s));
      assert App(Single(a), s) == Cons(a, App(Nil, s));
    } else {
      if a.Nest? { SeekOpsIn(id, a.rs); }
      if a.Nest? && SeekIn(id, a.rs).Some? {
        PutUndoneIn(r, y, a.rs);
        PutAbsent(id, y, s);
        ApplyAbsent(r, s);
      } else {
        SeekOps(id, s);
        PutUndone(r, y, s);
        if a.Nest? {
          PutAbsentIn(id, y, a.rs);
          CleanAbsentIn(r, a.rs);
          ApplyCleanIn(r, a.rs);
        }
      }
    }
  }

  lemma {:induction false} PutUndoneIn(r: Rule, y: Block, rs: Regions)
    requires Single?(r) && PlainIn(rs) && DistinctOpsIn(rs) && SeekIn(r.id, rs).Some? && SeekIn(r.id, rs).value.Cons?
    requires Undoes(r, y, SeekIn(r.id, rs).value.hd)
    ensures ApplyIn(r, PutIn(r.id, y, rs)) == rs
  {
    SeekOps(r.id, rs.b);
    if Seek(r.id, rs.b).Some? {
      PutUndone(r, y, rs.b);
      if rs.More? {
        PutAbsentIn(r.id, y, rs.rest);
        CleanAbsentIn(r, rs.rest);
        ApplyCleanIn(r, rs.rest);
      }
    } else {
      PutAbsent(r.id, y, rs.b);
      ApplyAbsent(r, rs.b);
      PutUndoneIn(r, y, rs.rest);
    }
  }

  /** Replacing an operation preserves every behaviour when a rule undoes it. */
  lemma PutPreserves(r: Rule, y: Block, p: Block)
    requires Single?(r) && WF(p) && Seek(r.id, p).Some? && Seek(r.id, p).value.Cons? && Targets(p) !! Lost(r)
    requires Undoes(r, y, Seek(r.id, p).value.hd) && Fits(r.id, Seek(r.id, p).value.hd, y)
    ensures WF(Put(r.id, y, p)) && Equivalent(p, Put(r.id, y, p))
  {
    var q := Put(r.id, y, p);
    var s := Seek(r.id, p).value.tl;
    PutShape(r.id, y, p);
    PutUndone(r, y, p);
    assert App(y, s) == Cons(y.hd, App(y.tl, s));
    SiteOkApp(r, y.hd, y.tl, s);
    OnePreserves(r, q);
  }
}
