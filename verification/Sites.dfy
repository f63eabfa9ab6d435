/** Label lookup across one rewritten site, rule by rule. */
module Sites {
  import opened Wrappers
  import opened Clift
  import opened Rules
  import opened Conditions
  import opened Lookup

  lemma {:induction false} LabelsApp(x: Block, y: Block)
    ensures Labels(App(x, y)) == Labels(x) + Labels(y)
  {
    if x.Cons? { LabelsApp(x.tl, y); }
  }

  lemma {:induction false} CleanTake(r: Rule, n: nat, b: Block)
    requires n <= Len(b)
    ensures Take(n, Take(n, b)) == Take(n, b) && Len(Take(n, b)) == n
  {
    if n > 0 { CleanTake(r, n - 1, b.tl); }
  }

  /** The continuation found on the left, rewritten, against the one found on the right. */
  ghost predicate Agree(r: Rule, f: Option<Block>, g: Option<Block>) {
    f.Some? && g.Some? && Core(r, Apply(r, f.value)) == Core(r, g.value)
  }

  lemma ThroughClean(r: Rule, m: Block, k: Block, k2: Block)
    requires Clean(r, m) && Core(r, Apply(r, k)) == Core(r, k2)
    ensures Core(r, Apply(r, App(m, k))) == Core(r, App(m, k2))
  {
    ApplyClean(r, m, k);
    CleanNoLeave(r, m);
    CoreApp(r, m, Apply(r, k), k2);
  }

  lemma FindOne(l: nat, a: Stmt, s: Block, k: Block)
    requires a.Nest? && l !in TagLabels(a.tag)
    ensures Find(l, Cons(a, s), k)
         == if FindIn(l, a.rs, Inner(a, App(s, k))).Some? then FindIn(l, a.rs, Inner(a, App(s, k))) else Find(l, s, k)
  {}

  lemma FindTwo(l: nat, x: Block, y: Block, k: Block)
    ensures FindIn(l, More(x, One(y)), k) == if Find(l, x, k).Some? then Find(l, x, k) else Find(l, y, k)
    ensures LabelsIn(More(x, One(y))) == Labels(x) + Labels(y)
  {}

  lemma CleanTwo(r: Rule, x: Block, y: Block)
    requires CleanIn(r, More(x, One(y)))
    ensures Clean(r, x) && Clean(r, y)
  {}

  // ----- Sink -----

  lemma {:induction false} SinkIn(r: Rule, l: nat, rs: Regions, i: nat, m: Block, k: Block, k2: Block)
    requires CleanIn(r, rs) && Clean(r, m) && OthersStop(rs, i) && i < Count(rs)
    requires Core(r, Apply(r, k)) == Core(r, k2)
    requires DistinctIn(rs) && LabelsIn(rs) !! Labels(m) && l in LabelsIn(rs) + Labels(m)
    ensures Agree(r, if l in LabelsIn(rs) then FindIn(l, rs, App(m, k)) else Find(l, m, k),
                  FindIn(l, AppendAt(rs, i, m), k2))
  {
    FindLabel(l, rs.b, App(m, k));
    FindLabel(l, rs.b, App(m, k2));
    FindLabel(l, rs.b, k2);
    FindLabel(l, m, k2);
    if i == 0 {
      FindApp(l, rs.b, m, k2);
      ThroughClean(r, m, k, k2);
      if l in Labels(rs.b) {
        FindMoved(r, l, rs.b, App(m, k), App(m, k2));
      } else if l in Labels(m) {
        FindMoved(r, l, m, k, k2);
      } else {
        StopIn(r, l, rs.rest, App(m, k), k2);
      }
    } else if l in Labels(rs.b) {
      FindMoved(r, l, rs.b, App(m, k), k2);
    } else {
      SinkIn(r, l, rs.rest, i - 1, m, k, k2);
    }
  }

  lemma {:induction false} StopIn(r: Rule, l: nat, rs: Regions, k: Block, k2: Block)
    requires CleanIn(r, rs) && l in LabelsIn(rs) && (NoFallAll(rs) || Core(r, Apply(r, k)) == Core(r, k2))
    ensures Agree(r, FindIn(l, rs, k), FindIn(l, rs, k2))
  {
    FindCleanIn(r, l, rs, k);
    FindSameIn(r, l, rs, Apply(r, k), k2);
  }

  lemma SinkSite(r: Rule, l: nat, a: Stmt, m: Block, k: Block, k2: Block)
    requires r.Sink? && Site(r, a) && SiteOk(r, a, m) && m == Take(Span(r), m)
    requires Core(r, Apply(r, k)) == Core(r, k2) && Distinct(Cons(a, m)) && l in Labels(Cons(a, m))
    ensures Agree(r, Find(l, Cons(a, m), k), Find(l, Local(r, a, m), k2))
  {
    FindLabelIn(l, a.rs, App(m, k));
    SinkIn(r, l, a.rs, r.i, m, k, k2);
  }

  // ----- Spread -----

  lemma {:induction false} SpreadIn(r: Rule, l: nat, rs: Regions, j: Stmt, k: Block, k2: Block)
    requires r.Spread? && j.Jump? && CleanIn(r, rs) && l in LabelsIn(rs)
    ensures Agree(r, FindIn(l, rs, Cons(j, k)), FindIn(l, AppendFalling(rs, Single(j)), k2))
  {
    FindLabel(l, rs.b, Cons(j, k));
    FindLabel(l, rs.b, Cons(j, k2));
    FindLabel(l, rs.b, k2);
    FindApp(l, rs.b, Single(j), k2);
    if l in Labels(rs.b) {
      FindMoved(r, l, rs.b, Cons(j, k), if NoFallEnd(rs.b) then k2 else Cons(j, k2));
    } else {
      SpreadIn(r, l, rs.rest, j, k, k2);
    }
  }

  // ----- Enloop -----

  lemma EnloopSite(r: Rule, l: nat, a: Stmt, m: Block, k: Block, k2: Block)
    requires r.Enloop? && Site(r, a) && SiteOk(r, a, m) && m == Take(Span(r), m)
    requires Core(r, Apply(r, k)) == Core(r, k2)
    requires l in Labels(Cons(a, m)) && l !in TagLabels(r.tag)
    ensures Agree(r, Find(l, Cons(a, m), k), Find(l, Local(r, a, m), k2))
  {
    var body := App(m, LeaveBlock(r.leave));
    var loop := Nest(r.tag, One(body));
    assert Local(r, a, m) == Cons(a, Single(loop));
    assert App(Single(loop), k2) == Cons(loop, k2);
    if a == Label(l) {
      CleanTake(r, r.n, m);
      TakeDropApp(r.n, m, k);
      DropAll(r.n, m);
      EnloopHead(r, m, k, loop, k2);
    } else {
      var k3 := Cons(loop, k2);
      FindOne(l, loop, Nil, k2);
      assert FindIn(l, One(body), k3) == Find(l, body, k3);
      FindApp(l, m, LeaveBlock(r.leave), k3);
      FindLabel(l, m, App(LeaveBlock(r.leave), k3));
      FindMoved(r, l, m, k, App(LeaveBlock(r.leave), k3));
      assert Find(l, Local(r, a, m), k2) == Find(l, Single(loop), k2);
    }
  }

  lemma EnloopHead(r: Rule, m: Block, k: Block, loop: Stmt, k2: Block)
    requires r.Enloop? && Take(r.n, App(m, k)) == m && Drop(r.n, App(m, k)) == k
    requires loop == Nest(r.tag, One(App(m, LeaveBlock(r.leave)))) && r.tag.While?
    requires Core(r, Apply(r, k)) == Core(r, k2)
    ensures Core(r, Apply(r, Cons(Label(r.l), App(m, k)))) == Core(r, Cons(Label(r.l), Cons(loop, k2)))
  {
    var a := Label(r.l);
    assert Local(r, a, m) == Cons(a, Single(loop));
    assert Apply(r, Cons(a, App(m, k))) == App(Cons(a, Single(loop)), Apply(r, k));
    assert App(Cons(a, Single(loop)), Apply(r, k)) == Cons(a, App(Single(loop), Apply(r, k)));
    assert App(Single(loop), Apply(r, k)) == Cons(loop, Apply(r, k));
  }

  lemma {:induction n, x} DropAll(n: nat, x: Block)
    requires Len(x) == n
    ensures Drop(n, x) == Nil
  {}

  // ----- two-way branches -----

  lemma SwapSite(r: Rule, l: nat, a: Stmt, k: Block, k2: Block)
    requires r.Swap? && Site(r, a) && SiteOk(r, a, Nil)
    requires Core(r, Apply(r, k)) == Core(r, k2) && DistinctOf(a) && l in LabelsOf(a)
    ensures Agree(r, Find(l, Single(a), k), Find(l, Local(r, a, Nil), k2))
  {
    var x, y := a.rs.b, a.rs.rest.b;
    var a2 := Local(r, a, Nil).hd;
    assert a.rs == More(x, One(y)) && a2.rs == More(y, One(x));
    FindOne(l, a, Nil, k);
    FindOne(l, a2, Nil, k2);
    FindTwo(l, x, y, k);
    FindTwo(l, y, x, k2);
    CleanTwo(r, x, y);
    FindLabel(l, x, k);
    FindLabel(l, y, k2);
    if l in Labels(x) {
      assert l !in Labels(y);
      FindMoved(r, l, x, k, k2);
    } else {
      FindMoved(r, l, y, k, k2);
    }
  }

  lemma SplitSite(r: Rule, l: nat, a: Stmt, k: Block, k2: Block)
    requires r.Split? && Site(r, a) && SiteOk(r, a, Nil)
    requires Core(r, Apply(r, k)) == Core(r, k2) && l in LabelsOf(a)
    ensures Agree(r, Find(l, Single(a), k), Find(l, Local(r, a, Nil), k2))
  {
    var x, y := a.rs.b, a.rs.rest.b;
    var a2 := Local(r, a, Nil).hd;
    var deep := Nested(r.inner, a.tag.test.c.r, r.innerElse, x, r.back);
    assert a.rs == More(x, One(y)) && a2.rs == More(Single(deep), One(y));
    FindOne(l, a, Nil, k);
    FindOne(l, a2, Nil, k2);
    FindOne(l, deep, Nil, k2);
    FindTwo(l, x, y, k);
    FindTwo(l, Single(deep), y, k2);
    FindTwo(l, x, r.back, k2);
    FindTwo(l, r.back, x, k2);
    assert Find(l, r.back, k2) == None;
    CleanTwo(r, x, y);
    FindLabel(l, x, k);
    FindLabel(l, x, k2);
    if l in Labels(x) { FindMoved(r, l, x, k, k2); } else { FindMoved(r, l, y, k, k2); }
  }

  // ----- loops -----

  lemma {:induction false} FindSplit(l: nat, n: nat, b: Block, inner: nat, c: Cond, thenBreak: bool, exit: Stmt,
      k: Block)
    requires exit.Jump?
    ensures Find(l, Cons(BreakUnless(inner, c, thenBreak, exit, Take(n, b)), Drop(n, b)), k) == Find(l, b, k)
  {
    var x, y := Take(n, b), Drop(n, b);
    TakeDrop(n, b);
    FindApp(l, x, y, k);
    var i := BreakUnless(inner, c, thenBreak, exit, x);
    FindOne(l, i, y, k);
    FindTwo(l, x, Single(exit), App(y, k));
    FindTwo(l, Single(exit), x, App(y, k));
    assert Find(l, Single(exit), App(y, k)) == None;
  }

  lemma BreakFirstSite(r: Rule, l: nat, a: Stmt, k: Block, k2: Block)
    requires r.BreakFirst? && Site(r, a) && SiteOk(r, a, Nil)
    requires Core(r, Apply(r, k)) == Core(r, k2) && l in LabelsOf(a)
    ensures Agree(r, Find(l, Single(a), k), Find(l, Local(r, a, Nil), k2))
  {
    var a2 := Local(r, a, Nil).hd;
    assert Apply(r, Cons(a, k)) == App(Single(a2), Apply(r, Drop(0, k)));
    assert App(Single(a2), Apply(r, k)) == Cons(a2, App(Nil, Apply(r, k)));
    FindSplit(l, r.n, a.rs.b, r.inner, a.tag.c, r.thenBreak, r.exit, Cons(a2, k2));
    FindLabel(l, a.rs.b, Cons(a, k));
    if l !in TagLabels(a.tag) { FindMoved(r, l, a.rs.b, Cons(a, k), Cons(a2, k2)); }
  }

  lemma BreakLastSite(r: Rule, l: nat, a: Stmt, k: Block, k2: Block)
    requires r.BreakLast? && Site(r, a) && SiteOk(r, a, Nil) && !a.Again?
    requires Core(r, Apply(r, k)) == Core(r, k2) && l in LabelsOf(a) && l !in r.unused
    ensures Agree(r, Find(l, Single(a), k), Find(l, Local(r, a, Nil), k2))
  {
    var a2 := EndlessDo(r, a);
    var i2 := BreakUnless(r.inner, a.tag.c, r.thenBreak, r.exit, Nil);
    assert Local(r, Again(a), Nil) == Cons(i2, Single(a2));
    assert Apply(r, Cons(Again(a), k)) == App(Cons(i2, Single(a2)), Apply(r, k));
    assert App(Cons(i2, Single(a2)), Apply(r, k)) == Cons(i2, App(Single(a2), Apply(r, k)));
    assert App(Single(a2), Apply(r, k)) == Cons(a2, Apply(r, k));
    FindApp(l, a.rs.b, Single(i2), Cons(a2, k2));
    FindLabel(l, a.rs.b, Cons(Again(a), k));
    FindLabel(l, a.rs.b, Cons(i2, Cons(a2, k2)));
    if l !in TagLabels(a.tag) { FindMoved(r, l, a.rs.b, Cons(Again(a), k), Cons(i2, Cons(a2, k2))); }
  }

  lemma SpreadSite(r: Rule, l: nat, a: Stmt, m: Block, k: Block, k2: Block)
    requires r.Spread? && Site(r, a) && SiteOk(r, a, m) && m == Take(1, m)
    requires l in Labels(Cons(a, m))
    ensures Agree(r, Find(l, Cons(a, m), k), Find(l, Local(r, a, m), k2))
  {
    var j := m.hd;
    assert m == Cons(j, Take(0, m.tl)) == Single(j);
    assert App(m, k) == Cons(j, App(Nil, k));
    var a2 := Local(r, a, m).hd;
    FindOne(l, a, m, k);
    FindOne(l, a2, Nil, k2);
    assert Labels(m) == {};
    SpreadIn(r, l, a.rs, j, k, k2);
  }

  /** All rules. */
  lemma FindSite(r: Rule, l: nat, a: Stmt, m: Block, k: Block, k2: Block)
    requires Site(r, a) && !a.Again? && SiteOk(r, a, m) && m == Take(Span(r), m)
    requires Core(r, Apply(r, k)) == Core(r, k2) && Distinct(Cons(a, m)) && l in Labels(Cons(a, m))
    requires l !in Lost(r) && (r.Enloop? ==> l !in TagLabels(r.tag))
    ensures Agree(r, Find(l, Cons(a, m), k), Find(l, Local(r, a, m), k2))
  {
    if r.Sink? { SinkSite(r, l, a, m, k, k2); }
    else if r.Spread? { SpreadSite(r, l, a, m, k, k2); }
    else if r.Enloop? { EnloopSite(r, l, a, m, k, k2); }
    else {
      assert m == Nil;
      assert LabelsOf(a) == Labels(Single(a));
      match r
      case Swap(_) => SwapSite(r, l, a, k, k2);
      case Split(_, _, _, _) => SplitSite(r, l, a, k, k2);
      case BreakFirst(_, _, _, _, _) => BreakFirstSite(r, l, a, k, k2);
      case BreakLast(_, _, _, _, _) => BreakLastSite(r, l, a, k, k2);
      case _ => assert false;
    }
  }
}
