/** One step of the original is matched by the rewritten program. */
module Steps {
  import opened Wrappers
  import opened Clift
  import opened Static
  import opened Rules
  import opened Conditions
  import opened Lookup
  import opened LabelLaws
  import opened Preserve
  import opened Places
  import opened Simulation

  /** Everything a rule asks of the program it is applied to. */
  ghost predicate Good(r: Rule, p: Block) {
    Plain(p) && Distinct(p) && Ok(r, p) && Sane(r, p, p, Nil)
  }

  lemma TargetMatch(r: Rule, p: Block, l: nat)
    requires Good(r, p) && l in Labels(p) && l !in Lost(r)
    ensures Core(r, Apply(r, Target(p, l))) == Core(r, Target(Apply(r, p), l))
  {
    FindApply(r, l, p, Nil, Nil);
  }

  lemma {:induction false} CoreSkip(r: Rule, x: Block)
    requires r.Jumps?
    ensures Core(r, Apply(r, SkipLabels(x))) == Core(r, Apply(r, x))
  {
    if x.Cons? && x.hd.Label? { CoreSkip(r, x.tl); }
  }

  // ----- the right program catches up -----

  lemma {:induction false} CatchUp(r: Rule, p: Block, t: Block) returns (u: Block)
    requires Good(r, p) && At(t, Apply(r, p))
    ensures Reaches(Apply(r, p), Run(t), Run(u)) && Core(r, u) == Core(r, t) && At(u, Apply(r, p))
    ensures if Core(r, t) == Nil then u == Nil else u.Cons? && u.hd == Core(r, t).hd && !u.hd.Label? && !Leaves(r, u.hd)
    decreases Len(t)
  {
    var q := Apply(r, p);
    u := t;
    ReachesSelf(q, Run(t));
    if t.Cons? {
      PlainApply(r, p);
      TailAt(t.hd, t.tl, q, Nil);
      if t.hd.Label? {
        u := CatchUp(r, p, t.tl);
        ReachesStep(q, Run(t), Run(u));
      } else if Leaves(r, t.hd) {
        LeaveNext(r, t.hd, t.tl, p, Nil);
        var Cons(loop, rest) := t.tl;
        TailAt(loop, rest, q, Nil);
        DistinctApply(r, p);
        FindHere(t.hd.l, loop, rest, rest, q, Nil);
        assert Len(t) == 1 + Len(t.tl) && Len(t.tl) == 1 + Len(rest);
        u := CatchUp(r, p, rest);
        ReachesStep(q, Run(t), Run(u));
      }
    }
  }

  /** A non-falling head hides what follows it; otherwise what follows matches too. */
  lemma CoreTail(r: Rule, a: Stmt, x: Block, y: Block)
    requires Core(r, Cons(a, x)) == Core(r, Cons(a, y)) && !a.Label? && !Leaves(r, a)
    ensures NoFall(a) || Core(r, x) == Core(r, y)
  {}

  lemma {:induction false} NthApply(r: Rule, rs: Regions, i: nat)
    requires i < Count(rs)
    ensures Count(ApplyIn(r, rs)) == Count(rs) && Nth(ApplyIn(r, rs), i) == Apply(r, Nth(rs, i))
    ensures OkIn(r, rs) ==> Ok(r, Nth(rs, i))
  {
    if rs.More? && i > 0 { NthApply(r, rs.rest, i - 1); }
    if rs.More? && i == 0 { NthApply(r, rs.rest, 0); }
  }

  lemma {:induction false} NthStops(rs: Regions, i: nat)
    requires NoFallAll(rs) && i < Count(rs)
    ensures NoFallEnd(Nth(rs, i))
  {
    if i > 0 { NthStops(rs.rest, i - 1); }
  }

  /** Entering the same region on both sides. */
  lemma RegionMatch(r: Rule, a: Stmt, s: Block, t: Block, i: nat)
    requires a.Nest? && !Site(r, a) && OkIn(r, a.rs) && i < Count(a.rs)
    requires NoFall(ApplyStmt(r, a)) || Core(r, Apply(r, s)) == Core(r, t)
    ensures Count(ApplyIn(r, a.rs)) == Count(a.rs)
    ensures Core(r, Apply(r, App(Nth(a.rs, i), Inner(a, s))))
         == Core(r, App(Nth(ApplyStmt(r, a).rs, i), Inner(ApplyStmt(r, a), t)))
  {
    var a2 := ApplyStmt(r, a);
    NthApply(r, a.rs, i);
    var x := Nth(a.rs, i);
    if NoFall(a2) {
      NthStops(a2.rs, i);
      ApplyApp(r, x, s);
      ApplyNoLeave(r, x);
      CoreApp(r, Apply(r, x), Apply(r, s), t);
    } else {
      ThroughInner(r, a, s, t);
      ThroughOk(r, x, Inner(a, s), Inner(a2, t));
    }
  }

  lemma PickMatch(r: Rule, a: Stmt, s: Block, t: Block, i: nat)
    requires a.Nest? && !Site(r, a) && OkIn(r, a.rs)
    requires NoFall(ApplyStmt(r, a)) || Core(r, Apply(r, s)) == Core(r, t)
    ensures Core(r, Apply(r, App(Pick(a.rs, i), Inner(a, s))))
         == Core(r, App(Pick(ApplyStmt(r, a).rs, i), Inner(ApplyStmt(r, a), t)))
  {
    RegionMatch(r, a, s, t, if i < Count(a.rs) then i else 0);
  }

  // ----- statements -----

  /** What the step lemmas establish: the left step is silent and makes progress, or the right
      program makes at least one step of its own. */
  ghost predicate Steps(r: Rule, p: Block, o: Oracle, c: State, d: Config) {
    var c2 := Step(p, o, c);
    var q := Apply(r, p);
    || (c2.tr == c.tr && Match(r, q, c2.c, d) && Less(c2.c, c.c))
    || exists e :: Moves(r, q, o, c, c2, d, e)
  }

  ghost predicate Moves(r: Rule, q: Block, o: Oracle, c: State, c2: State, d: Config, e: Config) {
    && Reaches(q, d, e) && e != End
    && Step(q, o, State(e, c.tr)).tr == c2.tr
    && Match(r, q, c2.c, Step(q, o, State(e, c.tr)).c)
  }

  /** Both sides at the image of the same statement. */
  lemma PlainStep(r: Rule, p: Block, o: Oracle, a: Stmt, s: Block, t: Block, tr: seq<Event>)
    requires Good(r, p) && IsCont(Cons(a, s), p, Nil) && !Site(r, a) && !a.Label?
    requires Core(r, Cons(ApplyStmt(r, a), Apply(r, s))) == Core(r, Cons(ApplyStmt(r, a), t))
    ensures Moves(r, Apply(r, p), o, State(Run(Cons(a, s)), tr), Step(p, o, State(Run(Cons(a, s)), tr)),
                  Run(Cons(ApplyStmt(r, a), t)), Run(Cons(ApplyStmt(r, a), t)))
  {
    var q := Apply(r, p);
    var a2 := ApplyStmt(r, a);
    var e := Run(Cons(a2, t));
    ReachesSelf(q, e);
    if a.Again? {
      AgainAt(a.loop, s, p, Nil);
      AgainStep(r, p, a, s, t);
    } else {
      OkAt(r, a, s, p, Nil);
      CoreTail(r, a2, Apply(r, s), t);
      if a.Nest? { NestStep(r, p, o, a, s, t, tr); } else { LeafStep(r, p, o, a, s, t, tr); }
    }
  }

  /** An action, a return or a jump. */
  lemma LeafStep(r: Rule, p: Block, o: Oracle, a: Stmt, s: Block, t: Block, tr: seq<Event>)
    requires Good(r, p) && IsCont(Cons(a, s), p, Nil) && !Site(r, a) && (a.Act? || a.Halt? || a.Jump?)
    requires NoFall(a) || Core(r, Apply(r, s)) == Core(r, t)
    ensures var c2 := Step(p, o, State(Run(Cons(a, s)), tr));
            var d2 := Step(Apply(r, p), o, State(Run(Cons(ApplyStmt(r, a), t)), tr));
            c2.tr == d2.tr && Match(r, Apply(r, p), c2.c, d2.c)
  {
    var q := Apply(r, p);
    match a
    case Act(_) => MatchRun(r, q, s, t);
    case Halt(_) => MatchRun(r, q, Nil, Nil);
    case Jump(_, _, l) =>
      SaneAt(r, p, a, s, p, Nil);
      TargetMatch(r, p, l);
      MatchRun(r, q, Target(p, l), Target(q, l));
  }

  /** Behind the condition of a do-while both the loop and what follows it correspond. */
  lemma AgainCore(r: Rule, d: Stmt, s: Block, t: Block)
    requires d.Nest? && d.tag.DoWhile? && !Site(r, Again(d))
    requires Core(r, Cons(ApplyStmt(r, Again(d)), Apply(r, s))) == Core(r, Cons(ApplyStmt(r, Again(d)), t))
    ensures Core(r, Apply(r, s)) == Core(r, t) && Core(r, Apply(r, Cons(d, s))) == Core(r, Cons(ApplyStmt(r, d), t))
  {
    CoreTail(r, ApplyStmt(r, Again(d)), Apply(r, s), t);
    assert !Site(r, d);
    assert Apply(r, Cons(d, s)) == Cons(ApplyStmt(r, d), Apply(r, s));
    CoreSame(r, ApplyStmt(r, d), Apply(r, s), t);
  }

  lemma CoreSame(r: Rule, a: Stmt, x: Block, y: Block)
    requires Core(r, x) == Core(r, y) && !a.Label? && !Leaves(r, a)
    ensures Core(r, Cons(a, x)) == Core(r, Cons(a, y))
  {}

  lemma AgainStep(r: Rule, p: Block, a: Stmt, s: Block, t: Block)
    requires Good(r, p) && a.Again? && !Site(r, a) && a.loop.Nest? && a.loop.tag.DoWhile?
    requires Core(r, Cons(ApplyStmt(r, a), Apply(r, s))) == Core(r, Cons(ApplyStmt(r, a), t))
    ensures Match(r, Apply(r, p), Quiet(p, Run(Cons(a, s))).value,
        Quiet(Apply(r, p), Run(Cons(ApplyStmt(r, a), t))).value)
  {
    var q, d := Apply(r, p), a.loop;
    AgainCore(r, d, s, t);
    MatchRun(r, q, Cons(d, s), Cons(ApplyStmt(r, d), t));
    MatchRun(r, q, s, t);
    MatchEval(r, q, d.tag.c, Run(Cons(d, s)), Run(s), Run(Cons(ApplyStmt(r, d), t)), Run(t));
  }

  /** A step that shows nothing, on both sides. */
  lemma QuietStep(p: Block, o: Oracle, c: Config, tr: seq<Event>)
    requires Quiet(p, c).Some?
    ensures Step(p, o, State(c, tr)) == State(Quiet(p, c).value, tr)
  {}

  lemma NestStep(r: Rule, p: Block, o: Oracle, a: Stmt, s: Block, t: Block, tr: seq<Event>)
    requires a.Nest? && !Site(r, a) && OkIn(r, a.rs)
    requires NoFall(ApplyStmt(r, a)) || Core(r, Apply(r, s)) == Core(r, t)
    ensures var c2 := Step(p, o, State(Run(Cons(a, s)), tr));
            var d2 := Step(Apply(r, p), o, State(Run(Cons(ApplyStmt(r, a), t)), tr));
            c2.tr == d2.tr && Match(r, Apply(r, p), c2.c, d2.c)
  {
    var q, a2 := Apply(r, p), ApplyStmt(r, a);
    if a.tag.Branch? && a.tag.test.Switch? {
      var i := o(tr, a.tag.test.x);
      PickMatch(r, a, s, t, i);
      MatchRun(r, q, App(Pick(a.rs, i), s), App(Pick(a2.rs, i), t));
    } else {
      QuietStep(p, o, Run(Cons(a, s)), tr);
      QuietStep(q, o, Run(Cons(a2, t)), tr);
      QuietNest(r, p, a, s, t);
    }
  }

  lemma PickRuns(r: Rule, q: Block, a: Stmt, s: Block, t: Block, i: nat)
    requires a.Nest? && !Site(r, a) && OkIn(r, a.rs)
    requires NoFall(ApplyStmt(r, a)) || Core(r, Apply(r, s)) == Core(r, t)
    ensures Match(r, q, Run(App(Pick(a.rs, i), Inner(a, s))),
                  Run(App(Pick(ApplyStmt(r, a).rs, i), Inner(ApplyStmt(r, a), t))))
  {
    PickMatch(r, a, s, t, i);
    MatchRun(r, q, App(Pick(a.rs, i), Inner(a, s)), App(Pick(ApplyStmt(r, a).rs, i), Inner(ApplyStmt(r, a), t)));
  }

  /** The silent step of a statement with regions, in one shape. */
  function Enter(a: Stmt, s: Block): Config
    requires a.Nest?
  {
    var x, y := Run(App(Pick(a.rs, 0), Inner(a, s))), Run(App(Pick(a.rs, 1), Inner(a, s)));
    match a.tag
    case Branch(_, If(c)) => Eval(c, x, y)
    case While(_, c, _, _) => Eval(c, x, Run(s))
    case _ => x
  }

  lemma EnterIs(p: Block, a: Stmt, s: Block)
    requires a.Nest? && !(a.tag.Branch? && a.tag.test.Switch?)
    ensures Quiet(p, Run(Cons(a, s))) == Some(Enter(a, s))
  {}

  lemma QuietNest(r: Rule, p: Block, a: Stmt, s: Block, t: Block)
    requires a.Nest? && !Site(r, a) && OkIn(r, a.rs) && !(a.tag.Branch? && a.tag.test.Switch?)
    requires NoFall(ApplyStmt(r, a)) || Core(r, Apply(r, s)) == Core(r, t)
    ensures Match(r, Apply(r, p), Quiet(p, Run(Cons(a, s))).value,
        Quiet(Apply(r, p), Run(Cons(ApplyStmt(r, a), t))).value)
  {
    EnterIs(p, a, s);
    EnterIs(Apply(r, p), ApplyStmt(r, a), t);
    EnterMatch(r, Apply(r, p), a, s, t);
  }

  lemma EnterMatch(r: Rule, q: Block, a: Stmt, s: Block, t: Block)
    requires a.Nest? && !Site(r, a) && OkIn(r, a.rs) && !(a.tag.Branch? && a.tag.test.Switch?)
    requires NoFall(ApplyStmt(r, a)) || Core(r, Apply(r, s)) == Core(r, t)
    ensures Match(r, q, Enter(a, s), Enter(ApplyStmt(r, a), t))
  {
    var a2 := ApplyStmt(r, a);
    PickRuns(r, q, a, s, t, 0);
    var x, x2 := Run(App(Pick(a.rs, 0), Inner(a, s))), Run(App(Pick(a2.rs, 0), Inner(a2, t)));
    if a.tag.Branch? {
      PickRuns(r, q, a, s, t, 1);
      MatchEval(r, q, a.tag.test.c, x, Run(App(Pick(a.rs, 1), Inner(a, s))), x2,
          Run(App(Pick(a2.rs, 1), Inner(a2, t))));
    } else if a.tag.While? {
      MatchRun(r, q, s, t);
      MatchEval(r, q, a.tag.c, x, Run(s), x2, Run(t));
    }
  }
}
