/** One step of the original at a rewritten site, rule by rule. */
module SiteSteps {
  import opened Clift
  import opened Static
  import opened Rules
  import opened Conditions
  import opened Lookup
  import opened Sites
  import opened Places
  import opened Simulation
  import opened Steps

  /** The left configuration at a site of rule `r`, and the first statement that replaces it. */
  ghost predicate AtSite(r: Rule, p: Block, a: Stmt, s: Block, a2: Stmt, t: Block) {
    && Good(r, p) && IsCont(Cons(a, s), p, Nil) && Site(r, a) && !a.Again? && SiteOk(r, a, s)
    && Core(r, Apply(r, Cons(a, s))) == Core(r, Cons(a2, t))
    && Local(r, a, Take(Span(r), s)) == Single(a2) && !Leaves(r, a2)
  }

  lemma AtSiteTail(r: Rule, p: Block, a: Stmt, s: Block, a2: Stmt, t: Block)
    requires AtSite(r, p, a, s, a2, t) && !a2.Label?
    ensures NoFall(a2) || Core(r, Apply(r, Drop(Span(r), s))) == Core(r, t)
  {
    assert Apply(r, Cons(a, s)) == App(Single(a2), Apply(r, Drop(Span(r), s)));
    assert App(Single(a2), Apply(r, Drop(Span(r), s))) == Cons(a2, App(Nil, Apply(r, Drop(Span(r), s))));
    CoreTail(r, a2, Apply(r, Drop(Span(r), s)), t);
  }

  // ----- branches whose regions grow -----

  ghost predicate SameRegions(r: Rule, q: Block, a: Stmt, s: Block, a2: Stmt, t: Block)
    requires a.Nest? && a2.Nest?
  {
    forall i: nat :: Match(r, q, Run(App(Pick(a.rs, i), s)), Run(App(Pick(a2.rs, i), t)))
  }

  lemma GrowStep(r: Rule, p: Block, o: Oracle, a: Stmt, s: Block, a2: Stmt, t: Block, tr: seq<Event>)
    requires a.Nest? && a2.Nest? && a.tag.Branch? && a2.tag == a.tag
    requires SameRegions(r, Apply(r, p), a, s, a2, t)
    ensures var c2 := Step(p, o, State(Run(Cons(a, s)), tr));
            var d2 := Step(Apply(r, p), o, State(Run(Cons(a2, t)), tr));
            c2.tr == d2.tr && Match(r, Apply(r, p), c2.c, d2.c)
  {
    var q := Apply(r, p);
    if a.tag.test.If? {
      QuietStep(p, o, Run(Cons(a, s)), tr);
      QuietStep(q, o, Run(Cons(a2, t)), tr);
      EnterIs(p, a, s);
      EnterIs(q, a2, t);
      MatchEval(r, q, a.tag.test.c, Run(App(Pick(a.rs, 0), s)), Run(App(Pick(a.rs, 1), s)),
                Run(App(Pick(a2.rs, 0), t)), Run(App(Pick(a2.rs, 1), t)));
    } else {
      var i := o(tr, a.tag.test.x);
      assert Match(r, q, Run(App(Pick(a.rs, i), s)), Run(App(Pick(a2.rs, i), t)));
    }
  }

  lemma {:induction false} NthAppendAt(rs: Regions, i: nat, m: Block, j: nat)
    requires j < Count(rs)
    ensures Count(AppendAt(rs, i, m)) == Count(rs)
    ensures Nth(AppendAt(rs, i, m), j) == if i == j then App(Nth(rs, j), m) else Nth(rs, j)
  {
    if rs.More? && i > 0 { NthAppendAt(rs.rest, i - 1, m, if j > 0 then j - 1 else 0); }
  }

  lemma {:induction false} NthAppendFalling(rs: Regions, m: Block, j: nat)
    requires j < Count(rs)
    ensures Count(AppendFalling(rs, m)) == Count(rs)
    ensures Nth(AppendFalling(rs, m), j) == if NoFallEnd(Nth(rs, j)) then Nth(rs, j) else App(Nth(rs, j), m)
  {
    if rs.More? { NthAppendFalling(rs.rest, m, if j > 0 then j - 1 else 0); }
  }

  lemma {:induction false} NthOther(rs: Regions, i: nat, j: nat)
    requires OthersStop(rs, i) && j < Count(rs) && i != j
    ensures NoFallEnd(Nth(rs, j))
  {
    if i == 0 { NthStops(rs.rest, j - 1); } else if j > 0 { NthOther(rs.rest, i - 1, j - 1); }
  }

  lemma {:induction false} NthClean(r: Rule, rs: Regions, j: nat)
    requires CleanIn(r, rs) && j < Count(rs)
    ensures Clean(r, Nth(rs, j))
  {
    if j > 0 { NthClean(r, rs.rest, j - 1); }
  }

  lemma SinkRegion(r: Rule, p: Block, a: Stmt, s: Block, a2: Stmt, t: Block, j: nat)
    requires r.Sink? && AtSite(r, p, a, s, a2, t) && j < Count(a.rs)
    ensures Count(a2.rs) == Count(a.rs)
    ensures Core(r, Apply(r, App(Nth(a.rs, j), s))) == Core(r, App(Nth(a2.rs, j), t))
  {
    var m, rest := Take(r.n, s), Drop(r.n, s);
    var x := Nth(a.rs, j);
    AtSiteTail(r, p, a, s, a2, t);
    NthClean(r, a.rs, j);
    CleanNoLeave(r, x);
    CleanNoLeave(r, m);
    NthAppendAt(a.rs, r.i, m, j);
    ApplyClean(r, x, s);
    if j == r.i {
      TakeDrop(r.n, s);
      ApplyClean(r, m, rest);
      AppAssoc(x, m, Apply(r, rest));
      AppAssoc(x, m, t);
      NoLeaveApp(r, x, m);
      if NoFall(a2) { NthStops(a2.rs, j); }
      CoreApp(r, App(x, m), Apply(r, rest), t);
    } else {
      NthOther(a.rs, r.i, j);
      CoreApp(r, x, Apply(r, s), t);
    }
  }

  lemma SpreadRegion(r: Rule, p: Block, a: Stmt, s: Block, a2: Stmt, t: Block, i: nat)
    requires r.Spread? && AtSite(r, p, a, s, a2, t) && i < Count(a.rs)
    ensures Count(a2.rs) == Count(a.rs)
    ensures Core(r, Apply(r, App(Nth(a.rs, i), s))) == Core(r, App(Nth(a2.rs, i), t))
  {
    var j := s.hd;
    assert Take(1, s) == Cons(j, Take(0, s.tl)) == Single(j);
    var x := Nth(a.rs, i);
    NthClean(r, a.rs, i);
    CleanNoLeave(r, x);
    NthAppendFalling(a.rs, Single(j), i);
    ApplyClean(r, x, s);
    if NoFallEnd(x) {
      CoreApp(r, x, Apply(r, s), t);
    } else {
      AppAssoc(x, Single(j), t);
      assert App(Single(j), t) == Cons(j, t);
      assert Apply(r, s) == Cons(j, Apply(r, s.tl));
      CoreApp(r, x, Apply(r, s), Cons(j, t));
    }
  }

  lemma SinkSpreadStep(r: Rule, p: Block, o: Oracle, a: Stmt, s: Block, a2: Stmt, t: Block, tr: seq<Event>)
    requires (r.Sink? || r.Spread?) && AtSite(r, p, a, s, a2, t)
    ensures var c2 := Step(p, o, State(Run(Cons(a, s)), tr));
            var d2 := Step(Apply(r, p), o, State(Run(Cons(a2, t)), tr));
            c2.tr == d2.tr && Match(r, Apply(r, p), c2.c, d2.c)
  {
    var q := Apply(r, p);
    forall i: nat
      ensures Match(r, q, Run(App(Pick(a.rs, i), s)), Run(App(Pick(a2.rs, i), t)))
    {
      var j := if i < Count(a.rs) then i else 0;
      if r.Sink? { SinkRegion(r, p, a, s, a2, t, j); } else { SpreadRegion(r, p, a, s, a2, t, j); }
      MatchRun(r, q, App(Nth(a.rs, j), s), App(Nth(a2.rs, j), t));
    }
    GrowStep(r, p, o, a, s, a2, t, tr);
  }

  // ----- conditions that change shape -----

  lemma StopsTwo(id: nat, c: Cond, x: Block, y: Block)
    ensures NoFall(Nest(Branch(id, If(c)), More(x, One(y)))) <==> NoFallEnd(x) && NoFallEnd(y)
  {
    assert NoFallAll(More(x, One(y))) <==> NoFallEnd(x) && NoFallAll(One(y));
    assert NoFallAll(One(y)) <==> NoFallEnd(y);
  }

  lemma EnterTwo(id: nat, c: Cond, x: Block, y: Block, t: Block)
    ensures Enter(Nest(Branch(id, If(c)), More(x, One(y))), t) == Eval(c, Run(App(x, t)), Run(App(y, t)))
  {
    var rs := More(x, One(y));
    assert Count(rs) == 1 + Count(rs.rest) && Count(rs.rest) == 1;
    assert Nth(rs, 1) == Nth(rs.rest, 0) == y;
  }

  /** A region of a two-way branch, when nothing else in it changes. */
  lemma SideMatch(r: Rule, p: Block, a: Stmt, s: Block, a2: Stmt, t: Block, x: Block)
    requires (r.Swap? || r.Split?) && AtSite(r, p, a, s, a2, t)
    requires x == a.rs.b || x == a.rs.rest.b
    requires NoFall(a2) ==> NoFallEnd(x)
    ensures Match(r, Apply(r, p), Run(App(x, s)), Run(App(x, t)))
  {
    AtSiteTail(r, p, a, s, a2, t);
    CleanTwo(r, a.rs.b, a.rs.rest.b);
    ApplyClean(r, x, s);
    CleanNoLeave(r, x);
    CoreApp(r, x, Apply(r, s), t);
    MatchRun(r, Apply(r, p), App(x, s), App(x, t));
  }

  lemma SwapStep(r: Rule, p: Block, a: Stmt, s: Block, a2: Stmt, t: Block)
    requires r.Swap? && AtSite(r, p, a, s, a2, t)
    ensures Match(r, Apply(r, p), Enter(a, s), Enter(a2, t))
  {
    var q, x, y, c := Apply(r, p), a.rs.b, a.rs.rest.b, a.tag.test.c;
    assert a2 == Nest(Branch(a.tag.id, If(Not(c))), More(y, One(x)));
    StopsTwo(a.tag.id, Not(c), y, x);
    EnterTwo(a.tag.id, c, x, y, s);
    EnterTwo(a.tag.id, Not(c), y, x, t);
    SideMatch(r, p, a, s, a2, t, x);
    SideMatch(r, p, a, s, a2, t, y);
    var d := Eval(c, Run(App(x, t)), Run(App(y, t)));
    MatchEval(r, q, c, Run(App(x, s)), Run(App(y, s)), Run(App(x, t)), Run(App(y, t)));
    ReachesSelf(q, d);
    assert Enter(a2, t) == Eval(Not(c), Run(App(y, t)), Run(App(x, t)));
    ReachesStep(q, Enter(a2, t), d);
    MatchLag(r, q, Enter(a, s), Enter(a2, t), d);
  }

  /** A jump on the right that leads to the image of `s`. */
  lemma ViaJump(r: Rule, p: Block, j: Stmt, s: Block, t: Block)
    requires Good(r, p) && j.Jump? && j.l in Labels(p) && j.l !in Lost(r) && Target(p, j.l) == s
    ensures Match(r, Apply(r, p), Run(s), Run(Cons(j, t)))
  {
    var q := Apply(r, p);
    TargetMatch(r, p, j.l);
    MatchRun(r, q, s, Target(q, j.l));
    ReachesSelf(q, Run(Target(q, j.l)));
    ReachesStep(q, Run(Cons(j, t)), Run(Target(q, j.l)));
    MatchLag(r, q, Run(s), Run(Cons(j, t)), Run(Target(q, j.l)));
  }

  lemma SplitBack(r: Rule, p: Block, a: Stmt, s: Block, a2: Stmt, t: Block)
    requires r.Split? && AtSite(r, p, a, s, a2, t)
    ensures Match(r, Apply(r, p), Run(App(a.rs.rest.b, s)), Run(App(r.back, t)))
  {
    var y := a.rs.rest.b;
    if r.back == Nil {
      var And(c1, c2) := a.tag.test.c;
      var deep := Nested(r.inner, c2, r.innerElse, a.rs.b, Nil);
      StopsTwo(a.tag.id, c1, Single(deep), y);
      assert !NoFallEnd(Nil);
      SideMatch(r, p, a, s, a2, t, y);
    } else {
      var j := r.back.hd;
      assert App(r.back, t) == Cons(j, App(Nil, t));
      EnterAt(a, s, 1, p, Nil);
      assert Nth(a.rs, 1) == y && Inner(a, s) == s;
      LabelsAt(y.hd, App(y.tl, s), p, Nil);
      FindHere(j.l, y.hd, App(y.tl, s), App(y, s), p, Nil);
      ViaJump(r, p, j, App(y, s), t);
    }
  }

  lemma SplitStep(r: Rule, p: Block, a: Stmt, s: Block, a2: Stmt, t: Block)
    requires r.Split? && AtSite(r, p, a, s, a2, t)
    ensures Match(r, Apply(r, p), Enter(a, s), Enter(a2, t))
  {
    var q, x, y := Apply(r, p), a.rs.b, a.rs.rest.b;
    var And(c1, c2) := a.tag.test.c;
    var deep := Nested(r.inner, c2, r.innerElse, x, r.back);
    assert a2 == Nest(Branch(a.tag.id, If(c1)), More(Single(deep), One(y)));
    assert App(Single(deep), t) == Cons(deep, App(Nil, t));
    StopsTwo(a.tag.id, c1, Single(deep), y);
    assert NoFallEnd(Single(deep)) == NoFall(deep);
    StopsTwo(r.inner, c2, x, r.back);
    if c2.Not? { StopsTwo(r.inner, c2.c, r.back, x); }
    EnterTwo(a.tag.id, And(c1, c2), x, y, s);
    EnterTwo(a.tag.id, c1, Single(deep), y, t);
    SideMatch(r, p, a, s, a2, t, x);
    SideMatch(r, p, a, s, a2, t, y);
    SplitBack(r, p, a, s, a2, t);
    var l, f := Run(App(x, s)), Run(App(y, s));
    SplitDeep(r, q, deep, c2, x, t, l, f);
    MatchEval(r, q, c1, Eval(c2, l, f), f, Run(Cons(deep, t)), Run(App(y, t)));
  }

  lemma SplitDeep(r: Rule, q: Block, deep: Stmt, c: Cond, x: Block, t: Block, l: Config, f: Config)
    requires r.Split? && deep == Nested(r.inner, c, r.innerElse, x, r.back)
    requires Match(r, q, l, Run(App(x, t))) && Match(r, q, f, Run(App(r.back, t)))
    ensures Match(r, q, Eval(c, l, f), Run(Cons(deep, t)))
  {
    EnterIs(q, deep, t);
    ReachesSelf(q, Enter(deep, t));
    ReachesStep(q, Run(Cons(deep, t)), Enter(deep, t));
    if r.innerElse && c.Not? {
      EnterTwo(r.inner, c.c, r.back, x, t);
      MatchEval(r, q, c.c, f, l, Run(App(r.back, t)), Run(App(x, t)));
    } else {
      EnterTwo(r.inner, c, x, r.back, t);
      MatchEval(r, q, c, l, f, Run(App(x, t)), Run(App(r.back, t)));
    }
    MatchLag(r, q, Eval(c, l, f), Run(Cons(deep, t)), Enter(deep, t));
  }

  // ----- loops -----

  /** The conditional break evaluates `c` and stays or leaves. */
  lemma BreakUnlessMatch(r: Rule, q: Block, inner: nat, c: Cond, thenBreak: bool, exit: Stmt, stay: Block, t: Block,
                         l: Config, f: Config)
    requires Match(r, q, l, Run(App(stay, t))) && Match(r, q, f, Run(Cons(exit, t)))
    ensures Match(r, q, Eval(c, l, f), Run(Cons(BreakUnless(inner, c, thenBreak, exit, stay), t)))
  {
    var i := BreakUnless(inner, c, thenBreak, exit, stay);
    assert App(Single(exit), t) == Cons(exit, App(Nil, t));
    EnterIs(q, i, t);
    ReachesSelf(q, Enter(i, t));
    ReachesStep(q, Run(Cons(i, t)), Enter(i, t));
    if thenBreak && c.Not? {
      EnterTwo(inner, c.c, Single(exit), stay, t);
      MatchEval(r, q, c.c, f, l, Run(Cons(exit, t)), Run(App(stay, t)));
    } else {
      EnterTwo(inner, c, stay, Single(exit), t);
      MatchEval(r, q, c, l, f, Run(App(stay, t)), Run(Cons(exit, t)));
    }
    MatchLag(r, q, Eval(c, l, f), Run(Cons(i, t)), Enter(i, t));
  }

  lemma EndlessReaches(q: Block, w: Stmt, t: Block)
    requires w.Nest? && w.tag.While? && w.tag.c == True
    ensures Reaches(q, Enter(w, t), Run(App(Nth(w.rs, 0), Cons(w, t))))
  {
    ReachesSelf(q, Run(App(Nth(w.rs, 0), Cons(w, t))));
    ReachesStep(q, Enter(w, t), Run(App(Nth(w.rs, 0), Cons(w, t))));
  }

  lemma LeaveMatch(r: Rule, p: Block, a: Stmt, s: Block, exit: Stmt, t: Block)
    requires Good(r, p) && IsCont(Cons(a, s), p, Nil) && a.Nest? && LeavesBy(a.tag, exit) && exit.l !in Lost(r)
    ensures Match(r, Apply(r, p), Run(s), Run(Cons(exit, t)))
  {
    LabelsAt(a, s, p, Nil);
    FindHere(exit.l, a, s, s, p, Nil);
    ViaJump(r, p, exit, s, t);
  }

  lemma BreakFirstStep(r: Rule, p: Block, a: Stmt, s: Block, a2: Stmt, t: Block)
    requires r.BreakFirst? && AtSite(r, p, a, s, a2, t)
    ensures Match(r, Apply(r, p), Enter(a, s), Enter(a2, t))
  {
    var q, body := Apply(r, p), a.rs.b;
    var x, y := Take(r.n, body), Drop(r.n, body);
    var i := BreakUnless(r.inner, a.tag.c, r.thenBreak, r.exit, x);
    assert a2 == Nest(While(a.tag.id, True, a.tag.brk, a.tag.cont), One(Cons(i, y)));
    AtSiteTail(r, p, a, s, a2, t);
    assert Apply(r, Cons(a, s)) == App(Single(a2), Apply(r, Drop(0, s)));
    assert App(Single(a2), Apply(r, s)) == Cons(a2, App(Nil, Apply(r, s)));
    ApplyClean(r, body, Cons(a, s));
    CleanNoLeave(r, body);
    CoreApp(r, body, Cons(a2, Apply(r, s)), Cons(a2, t));
    TakeDrop(r.n, body);
    AppAssoc(x, y, Cons(a2, t));
    var t2 := App(y, Cons(a2, t));
    MatchRun(r, q, App(body, Cons(a, s)), App(x, t2));
    LeaveMatch(r, p, a, s, r.exit, t2);
    BreakUnlessMatch(r, q, r.inner, a.tag.c, r.thenBreak, r.exit, x, t2, Run(App(body, Cons(a, s))), Run(s));
    EndlessReaches(q, a2, t);
    assert App(Nth(a2.rs, 0), Cons(a2, t)) == Cons(i, t2);
    MatchLag(r, q, Enter(a, s), Enter(a2, t), Run(Cons(i, t2)));
  }

  lemma BreakLastStep(r: Rule, p: Block, a: Stmt, s: Block, a2: Stmt, t: Block)
    requires r.BreakLast? && AtSite(r, p, a, s, a2, t)
    ensures Match(r, Apply(r, p), Enter(a, s), Enter(a2, t))
  {
    var q, body := Apply(r, p), a.rs.b;
    var i := BreakUnless(r.inner, a.tag.c, r.thenBreak, r.exit, Nil);
    assert a2 == EndlessDo(r, a) && a2.rs == One(App(body, Single(i)));
    AtSiteTail(r, p, a, s, a2, t);
    AgainApply(r, a, s);
    ApplyClean(r, body, Cons(Again(a), s));
    CleanNoLeave(r, body);
    CoreApp(r, body, Cons(i, Cons(a2, Apply(r, s))), Cons(i, Cons(a2, t)));
    AppAssoc(body, Single(i), Cons(a2, t));
    assert App(Single(i), Cons(a2, t)) == Cons(i, App(Nil, Cons(a2, t)));
    var t2 := App(App(body, Single(i)), Cons(a2, t));
    MatchRun(r, q, App(body, Cons(Again(a), s)), t2);
    EndlessReaches(q, a2, t);
    MatchLag(r, q, Enter(a, s), Enter(a2, t), Run(t2));
  }

  lemma AgainApply(r: Rule, a: Stmt, s: Block)
    requires r.BreakLast? && IsDo(a, r.id)
    ensures Apply(r, Cons(Again(a), s))
         == Cons(BreakUnless(r.inner, a.tag.c, r.thenBreak, r.exit, Nil), Cons(EndlessDo(r, a), Apply(r, s)))
    ensures Apply(r, Cons(a, s)) == Cons(EndlessDo(r, a), Apply(r, s))
  {
    var i, w := BreakUnless(r.inner, a.tag.c, r.thenBreak, r.exit, Nil), EndlessDo(r, a);
    assert Local(r, Again(a), Nil) == Cons(i, Single(w));
    assert Apply(r, Cons(Again(a), s)) == App(Cons(i, Single(w)), Apply(r, s));
    assert App(Cons(i, Single(w)), Apply(r, s)) == Cons(i, App(Single(w), Apply(r, s)));
    assert App(Single(w), Apply(r, s)) == Cons(w, Apply(r, s));
  }

  /** At the condition of the do-while itself. */
  lemma AgainSiteStep(r: Rule, p: Block, a: Stmt, s: Block, t: Block)
    requires r.BreakLast? && Good(r, p) && IsCont(Cons(a, s), p, Nil) && IsDo(a, r.id) && SiteOk(r, a, s)
    requires var i := BreakUnless(r.inner, a.tag.c, r.thenBreak, r.exit, Nil);
             Core(r, Apply(r, Cons(Again(a), s))) == Core(r, Cons(i, t))
    ensures var i := BreakUnless(r.inner, a.tag.c, r.thenBreak, r.exit, Nil);
            Match(r, Apply(r, p), Eval(a.tag.c, Run(Cons(a, s)), Run(s)), Enter(i, t))
  {
    var q := Apply(r, p);
    var i := BreakUnless(r.inner, a.tag.c, r.thenBreak, r.exit, Nil);
    AgainApply(r, a, s);
    assert !NoFallEnd(Nil);
    StopsTwo(r.inner, a.tag.c, Nil, Single(r.exit));
    if a.tag.c.Not? { StopsTwo(r.inner, a.tag.c.c, Single(r.exit), Nil); }
    MatchRun(r, q, Cons(a, s), t);
    LeaveMatch(r, p, a, s, r.exit, t);
    assert App(Single(r.exit), t) == Cons(r.exit, App(Nil, t));
    if r.thenBreak && a.tag.c.Not? {
      EnterTwo(r.inner, a.tag.c.c, Single(r.exit), Nil, t);
      MatchEval(r, q, a.tag.c.c, Run(s), Run(Cons(a, s)), Run(Cons(r.exit, t)), Run(t));
    } else {
      EnterTwo(r.inner, a.tag.c, Nil, Single(r.exit), t);
      MatchEval(r, q, a.tag.c, Run(Cons(a, s)), Run(s), Run(t), Run(Cons(r.exit, t)));
    }
  }
}
