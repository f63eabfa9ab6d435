/** The main theorem about rewriting: a rule applied where its conditions hold keeps every
    behaviour of the program. */
module Preservation {
  import opened Wrappers
  import opened Clift
  import opened Behaviours
  import opened Static
  import opened Rules
  import opened Conditions
  import opened Preserve
  import opened Places
  import opened Simulation
  import opened Steps
  import opened SiteSteps

  lemma {:induction false} LagAt(q: Block, d: Config, m: nat)
    requires AtAll(d, q) && Plain(q) && Lag(q, d, m).Some?
    ensures AtAll(Lag(q, d, m).value, q)
    decreases m
  {
    if m > 0 {
      QuietAt(q, d);
      LagAt(q, Quiet(q, d).value, m - 1);
    }
  }

  lemma ReachesAt(q: Block, d: Config, e: Config)
    requires AtAll(d, q) && Plain(q) && Reaches(q, d, e)
    ensures AtAll(e, q)
  {
    var m: nat :| Lag(q, d, m) == Some(e);
    LagAt(q, d, m);
  }

  lemma EvalStep(r: Rule, p: Block, o: Oracle, c: State, d: Config)
    requires c.c.Eval? && Match(r, Apply(r, p), c.c, d)
    ensures Steps.Steps(r, p, o, c, d)
  {
    var q := Apply(r, p);
    var Eval(e, t, f) := c.c;
    if e.Atom? {
      var t2, f2 :| Reaches(q, d, Eval(e, t2, f2)) && Match(r, q, t, t2) && Match(r, q, f, f2);
      assert Moves(r, q, o, c, Step(p, o, c), d, Eval(e, t2, f2));
    } else {
      var c2 := Quiet(p, c.c).value;
      CondLess(p, e, t, f);
      assert Step(p, o, c) == State(c2, c.tr);
      assert Match(r, q, c2, d);
    }
  }

  /** Evaluating a connective comes closer to its atoms. */
  lemma CondLess(p: Block, e: Cond, t: Config, f: Config)
    requires !e.Atom?
    ensures Quiet(p, Eval(e, t, f)).Some? && Less(Quiet(p, Eval(e, t, f)).value, Eval(e, t, f))
  {
    if e.And? {
      WeightAnd(e.l, e.r, t, f);
      assert Rank(Eval(e.r, t, f)) == Rank(Eval(e, t, f)) && Rank(Eval(e.l, Eval(e.r, t, f), f)) == Rank(Eval(e, t, f));
    }
  }

  /** Entering a loop that was just built: the label before it is passed on the left only. */
  lemma EnloopEnter(r: Rule, p: Block, a: Stmt, s: Block, t: Block)
    requires Good(r, p) && r.Enloop? && IsCont(Cons(a, s), p, Nil) && Site(r, a) && SiteOk(r, a, s)
    requires Core(r, Apply(r, Cons(a, s))) == Core(r, t) && At(t, Apply(r, p))
    ensures Match(r, Apply(r, p), Run(s), Run(t))
  {
    var q := Apply(r, p);
    var m, rest := Take(r.n, s), Drop(r.n, s);
    var body := App(m, LeaveBlock(r.leave));
    var loop := Nest(r.tag, One(body));
    assert Local(r, a, m) == Cons(a, Single(loop));
    assert Apply(r, Cons(a, s)) == App(Cons(a, Single(loop)), Apply(r, rest));
    assert App(Cons(a, Single(loop)), Apply(r, rest)) == Cons(a, App(Single(loop), Apply(r, rest)));
    assert App(Single(loop), Apply(r, rest)) == Cons(loop, Apply(r, rest));
    var u := CatchUp(r, p, t);
    assert u.hd == loop && Core(r, u.tl) == Core(r, Apply(r, rest));
    var v := App(body, Cons(loop, u.tl));
    EnterIs(q, loop, u.tl);
    EndlessReaches(q, loop, u.tl);
    ReachesStep(q, Run(u), Run(v));
    TakeDrop(r.n, s);
    ApplyClean(r, m, rest);
    CleanNoLeave(r, m);
    AppAssoc(m, LeaveBlock(r.leave), Cons(loop, u.tl));
    CoreApp(r, m, Apply(r, rest), App(LeaveBlock(r.leave), Cons(loop, u.tl)));
    MatchRun(r, q, s, v);
    MatchLag(r, q, Run(s), Run(u), Run(v));
    MatchLag(r, q, Run(s), Run(t), Run(u));
  }

  lemma LabelMatch(r: Rule, p: Block, a: Stmt, s: Block, t: Block)
    requires Good(r, p) && IsCont(Cons(a, s), p, Nil) && a.Label?
    requires Core(r, Apply(r, Cons(a, s))) == Core(r, t) && At(t, Apply(r, p))
    ensures Match(r, Apply(r, p), Run(s), Run(t))
  {
    OkAt(r, a, s, p, Nil);
    if Site(r, a) && r.Enloop? {
      EnloopEnter(r, p, a, s, t);
    } else {
      assert Core(r, Apply(r, Cons(a, s))) == Core(r, Apply(r, s));
      MatchRun(r, Apply(r, p), s, t);
    }
  }

  lemma LabelStep(r: Rule, p: Block, o: Oracle, a: Stmt, s: Block, t: Block, tr: seq<Event>, d: Config)
    requires Good(r, p) && IsCont(Cons(a, s), p, Nil) && a.Label?
    requires Core(r, Apply(r, Cons(a, s))) == Core(r, t) && At(t, Apply(r, p)) && Reaches(Apply(r, p), d, Run(t))
    ensures Steps.Steps(r, p, o, State(Run(Cons(a, s)), tr), d)
  {
    LabelMatch(r, p, a, s, t);
    MatchLag(r, Apply(r, p), Run(s), d, Run(t));
    QuietStep(p, o, Run(Cons(a, s)), tr);
  }

  lemma EraseStep(r: Rule, p: Block, o: Oracle, a: Stmt, s: Block, t: Block, tr: seq<Event>, d: Config)
    requires Good(r, p) && IsCont(Cons(a, s), p, Nil) && Site(r, a) && r.Jumps? && r.fate[a.id] == Erase
    requires Core(r, Apply(r, Cons(a, s))) == Core(r, t) && Reaches(Apply(r, p), d, Run(t))
    ensures Steps.Steps(r, p, o, State(Run(Cons(a, s)), tr), d)
  {
    var q, f := Apply(r, p), Target(p, a.l);
    SaneAt(r, p, a, s, p, Nil);
    CoreSkip(r, s);
    CoreSkip(r, f);
    MatchRun(r, q, f, t);
    MatchLag(r, q, Run(f), d, Run(t));
    QuietStep(p, o, Run(Cons(a, s)), tr);
    SkipShorter(s);
  }

  lemma {:induction b} SkipShorter(b: Block)
    ensures Len(SkipLabels(b)) <= Len(b)
  {}

  lemma RetargetStep(r: Rule, p: Block, a: Stmt, s: Block, a2: Stmt, t: Block)
    requires Good(r, p) && IsCont(Cons(a, s), p, Nil) && Site(r, a) && r.Jumps? && r.fate[a.id].Retarget?
    requires a2 == Jump(a.id, r.fate[a.id].kind, r.fate[a.id].l)
    ensures Match(r, Apply(r, p), Run(Target(p, a.l)), Run(Target(Apply(r, p), a2.l)))
  {
    SaneAt(r, p, a, s, p, Nil);
    TargetMatch(r, p, a2.l);
    CoreSkip(r, Target(p, a.l));
    CoreSkip(r, Target(p, a2.l));
    MatchRun(r, Apply(r, p), Target(p, a.l), Target(Apply(r, p), a2.l));
  }

  /** Every rule but the ones that erase leaves one statement at the site. */
  lemma LocalSingle(r: Rule, a: Stmt, m: Block)
    requires Site(r, a) && !a.Label? && !a.Again? && !(r.Jumps? && r.fate[a.id] == Erase)
    ensures Local(r, a, m).Cons? && Local(r, a, m) == Single(Local(r, a, m).hd)
    ensures !Local(r, a, m).hd.Label? && !Leaves(r, Local(r, a, m).hd)
  {}

  lemma SiteHead(r: Rule, p: Block, a: Stmt, s: Block, u: Block)
    requires Good(r, p) && IsCont(Cons(a, s), p, Nil) && Site(r, a) && !a.Label? && !a.Again? && SiteOk(r, a, s)
    requires !(r.Jumps? && r.fate[a.id] == Erase)
    requires Core(r, u) == Core(r, Apply(r, Cons(a, s)))
    requires Core(r, u) != Nil ==> u.Cons? && u.hd == Core(r, u).hd && !u.hd.Label?
    ensures u.Cons? && AtSite(r, p, a, s, u.hd, u.tl)
  {
    LocalSingle(r, a, Take(Span(r), s));
    var a2, rest := Local(r, a, Take(Span(r), s)).hd, Apply(r, Drop(Span(r), s));
    assert Apply(r, Cons(a, s)) == App(Single(a2), rest);
    assert App(Single(a2), rest) == Cons(a2, App(Nil, rest));
    CoreHead(r, a2, rest);
  }

  lemma CoreHead(r: Rule, a: Stmt, s: Block)
    requires !a.Label? && !Leaves(r, a)
    ensures Core(r, Cons(a, s)).Cons? && Core(r, Cons(a, s)).hd == a
  {}

  lemma SiteStep(r: Rule, p: Block, o: Oracle, a: Stmt, s: Block, u: Block, tr: seq<Event>)
    requires u.Cons? && AtSite(r, p, a, s, u.hd, u.tl) && !a.Label?
    ensures Moves(r, Apply(r, p), o, State(Run(Cons(a, s)), tr), Step(p, o, State(Run(Cons(a, s)), tr)), Run(u), Run(u))
  {
    var q := Apply(r, p);
    var Cons(a2, t) := u;
    ReachesSelf(q, Run(u));
    if r.Sink? || r.Spread? {
      SinkSpreadStep(r, p, o, a, s, a2, t, tr);
    } else {
      QuietStep(p, o, Run(Cons(a, s)), tr);
      QuietStep(q, o, Run(u), tr);
      if r.Jumps? {
        RetargetStep(r, p, a, s, a2, t);
      } else {
        EnterIs(p, a, s);
        EnterIs(q, a2, t);
        match r
        case Swap(_) => SwapStep(r, p, a, s, a2, t);
        case Split(_, _, _, _) => SplitStep(r, p, a, s, a2, t);
        case BreakFirst(_, _, _, _, _) => BreakFirstStep(r, p, a, s, a2, t);
        case BreakLast(_, _, _, _, _) => BreakLastStep(r, p, a, s, a2, t);
      }
    }
  }

  /** The condition of a do-while that becomes a trailing break. */
  lemma AgainMoves(r: Rule, p: Block, o: Oracle, a: Stmt, s: Block, u: Block, tr: seq<Event>)
    requires Good(r, p) && IsCont(Cons(a, s), p, Nil) && Site(r, a) && a.Again?
    requires Core(r, u) == Core(r, Apply(r, Cons(a, s)))
    requires Core(r, u) != Nil ==> u.Cons? && u.hd == Core(r, u).hd
    ensures Moves(r, Apply(r, p), o, State(Run(Cons(a, s)), tr), Step(p, o, State(Run(Cons(a, s)), tr)), Run(u), Run(u))
  {
    var q, d := Apply(r, p), a.loop;
    AgainAt(d, s, p, Nil);
    OkAt(r, d, s, p, Nil);
    AgainApply(r, d, s);
    var i := BreakUnless(r.inner, d.tag.c, r.thenBreak, r.exit, Nil);
    assert u.hd == i;
    AgainSiteStep(r, p, d, s, u.tl);
    EnterIs(q, i, u.tl);
    QuietStep(p, o, Run(Cons(a, s)), tr);
    QuietStep(q, o, Run(u), tr);
    ReachesSelf(q, Run(u));
  }

  lemma MovesLater(r: Rule, q: Block, o: Oracle, c: State, c2: State, d: Config, e: Config)
    requires Reaches(q, d, e) && Moves(r, q, o, c, c2, e, e)
    ensures Moves(r, q, o, c, c2, d, e)
  {}

  /** Both sides stand at the statement and its counterpart. */
  lemma HeadStep(r: Rule, p: Block, o: Oracle, a: Stmt, s: Block, u: Block, tr: seq<Event>)
    requires Good(r, p) && IsCont(Cons(a, s), p, Nil) && !a.Label? && !(r.Jumps? && Site(r, a) && r.fate[a.id] == Erase)
    requires Core(r, Apply(r, Cons(a, s))) == Core(r, u) && At(u, Apply(r, p))
    requires Core(r, u) != Nil ==> u.Cons? && u.hd == Core(r, u).hd
    ensures Moves(r, Apply(r, p), o, State(Run(Cons(a, s)), tr), Step(p, o, State(Run(Cons(a, s)), tr)), Run(u), Run(u))
  {
    if !Site(r, a) {
      HeadMatches(r, p, a, s, u);
      PlainStep(r, p, o, a, s, u.tl, tr);
    } else if a.Again? {
      AgainMoves(r, p, o, a, s, u, tr);
    } else {
      OkAt(r, a, s, p, Nil);
      SiteHead(r, p, a, s, u);
      SiteStep(r, p, o, a, s, u, tr);
    }
  }

  lemma RunStep(r: Rule, p: Block, o: Oracle, a: Stmt, s: Block, tr: seq<Event>, d: Config)
    requires Good(r, p) && IsCont(Cons(a, s), p, Nil) && AtAll(d, Apply(r, p))
    requires Match(r, Apply(r, p), Run(Cons(a, s)), d)
    ensures Steps.Steps(r, p, o, State(Run(Cons(a, s)), tr), d)
  {
    var q := Apply(r, p);
    PlainApply(r, p);
    var t :| Reaches(q, d, Run(t)) && Core(r, Apply(r, Cons(a, s))) == Core(r, t);
    ReachesAt(q, d, Run(t));
    if a.Label? {
      LabelStep(r, p, o, a, s, t, tr, d);
    } else if r.Jumps? && Site(r, a) && r.fate[a.id] == Erase {
      EraseStep(r, p, o, a, s, t, tr, d);
    } else {
      var u := CatchUp(r, p, t);
      ReachesThen(q, d, Run(t), Run(u));
      HeadStep(r, p, o, a, s, u, tr);
      MovesLater(r, q, o, State(Run(Cons(a, s)), tr), Step(p, o, State(Run(Cons(a, s)), tr)), d, Run(u));
    }
  }

  lemma HeadMatches(r: Rule, p: Block, a: Stmt, s: Block, u: Block)
    requires Good(r, p) && IsCont(Cons(a, s), p, Nil) && !Site(r, a) && !a.Label?
    requires Core(r, u) == Core(r, Apply(r, Cons(a, s)))
    requires Core(r, u) != Nil ==> u.Cons? && u.hd == Core(r, u).hd
    ensures u.Cons? && u.hd == ApplyStmt(r, a)
    ensures Core(r, Cons(ApplyStmt(r, a), Apply(r, s))) == Core(r, Cons(ApplyStmt(r, a), u.tl))
  {
    if !a.Again? { OkAt(r, a, s, p, Nil); }
    StaysHere(r, a);
    assert Apply(r, Cons(a, s)) == Cons(ApplyStmt(r, a), Apply(r, s));
  }

  /** Only the leaving jump of a new loop leaves. */
  lemma StaysHere(r: Rule, a: Stmt)
    requires !Site(r, a) && !a.Label? && (!a.Again? ==> Fresh(r, a))
    ensures !Leaves(r, ApplyStmt(r, a)) && !ApplyStmt(r, a).Label?
  {}

  lemma StepMatch(r: Rule, p: Block, o: Oracle, c: State, d: Config)
    requires Good(r, p) && AtAll(c.c, p) && AtAll(d, Apply(r, p)) && Match(r, Apply(r, p), c.c, d) && c.c != End
    ensures Steps.Steps(r, p, o, c, d)
  {
    if c.c.Eval? { EvalStep(r, p, o, c, d); } else { RunStep(r, p, o, c.c.b.hd, c.c.b.tl, c.tr, d); }
  }

  // ----- whole runs -----

  ghost predicate Related(r: Rule, p: Block, o: Oracle, n: nat, m: nat) {
    && Match(r, Apply(r, p), Exec(p, o, n).c, Exec(Apply(r, p), o, m).c)
    && Exec(p, o, n).tr == Exec(Apply(r, p), o, m).tr
  }

  lemma {:induction false} ExecLag(q: Block, o: Oracle, m: nat, k: nat)
    requires Lag(q, Exec(q, o, m).c, k).Some?
    ensures Exec(q, o, m + k) == State(Lag(q, Exec(q, o, m).c, k).value, Exec(q, o, m).tr)
    decreases k
  {
    if k > 0 {
      QuietStep(q, o, Exec(q, o, m).c, Exec(q, o, m).tr);
      ExecLag(q, o, m + 1, k - 1);
    }
  }

  /** A finished run stays where it is. */
  lemma EndStays(q: Block, d: Config)
    requires Reaches(q, End, d)
    ensures d == End
  {
    var m: nat :| Lag(q, End, m) == Some(d);
  }

  lemma ExecReaches(q: Block, o: Oracle, m: nat, e: Config) returns (k: nat)
    requires Reaches(q, Exec(q, o, m).c, e) && e != End
    ensures k > 0 && Exec(q, o, m + k) == Step(q, o, State(e, Exec(q, o, m).tr))
    ensures Exec(q, o, m).c != End
  {
    var j: nat :| Lag(q, Exec(q, o, m).c, j) == Some(e);
    ExecLag(q, o, m, j);
    if Exec(q, o, m).c == End { EndStays(q, e); }
    k := j + 1;
  }

  lemma StepRelated(r: Rule, p: Block, o: Oracle, n: nat, m: nat)
    requires Good(r, p) && Related(r, p, o, n, m) && Exec(p, o, n).c != End
    ensures Steps.Steps(r, p, o, Exec(p, o, n), Exec(Apply(r, p), o, m).c)
  {
    ExecAt(p, o, n);
    PlainApply(r, p);
    ExecAt(Apply(r, p), o, m);
    StepMatch(r, p, o, Exec(p, o, n), Exec(Apply(r, p), o, m).c);
  }

  lemma Advance(r: Rule, p: Block, o: Oracle, n: nat, m: nat) returns (k: nat)
    requires Good(r, p) && Related(r, p, o, n, m) && Exec(p, o, n).c != End
    ensures Related(r, p, o, n + 1, m + k)
    ensures k == 0 ==> Exec(p, o, n + 1).tr == Exec(p, o, n).tr && Less(Exec(p, o, n + 1).c, Exec(p, o, n).c)
    ensures k > 0 ==> Exec(Apply(r, p), o, m).c != End
  {
    var q := Apply(r, p);
    var c, d := Exec(p, o, n), Exec(q, o, m);
    StepRelated(r, p, o, n, m);
    var c2 := Step(p, o, c);
    assert Exec(p, o, n + 1) == c2;
    k := 0;
    if !(c2.tr == c.tr && Match(r, q, c2.c, d.c) && Less(c2.c, c.c)) {
      var e :| Moves(r, q, o, c, c2, d.c, e);
      k := ExecReaches(q, o, m, e);
    }
  }

  lemma Start(r: Rule, p: Block, o: Oracle)
    ensures Related(r, p, o, 0, 0)
  {
    MatchRun(r, Apply(r, p), p, Apply(r, p));
  }

  lemma {:induction false} Track(r: Rule, p: Block, o: Oracle, n: nat) returns (m: nat)
    requires Good(r, p)
    ensures Related(r, p, o, n, m)
  {
    if n == 0 {
      m := 0;
      Start(r, p, o);
    } else {
      m := Track(r, p, o, n - 1);
      if Exec(p, o, n - 1).c == End {
        StepGrows(p, o, Exec(p, o, n - 1));
      } else {
        var k := Advance(r, p, o, n - 1, m);
        m := m + k;
      }
    }
  }

  /** While the original hangs, the rewritten program keeps stepping. */
  lemma {:induction false} Push(r: Rule, p: Block, o: Oracle, n: nat, m: nat) returns (n2: nat, m2: nat)
    requires Good(r, p) && Related(r, p, o, n, m) && Silent(p, o, n)
    ensures n < n2 && m < m2 && Related(r, p, o, n2, m2) && Exec(Apply(r, p), o, m).c != End
    decreases Rank(Exec(p, o, n).c), Weight(Exec(p, o, n).c)
  {
    assert Exec(p, o, n).c != End;
    var k := Advance(r, p, o, n, m);
    n2, m2 := n + 1, m + k;
    if k == 0 {
      assert Exec(p, o, n + 1).tr == Exec(p, o, n).tr;
      n2, m2 := Push(r, p, o, n + 1, m);
    }
  }

  lemma {:induction false} PushMany(r: Rule, p: Block, o: Oracle, n: nat, m: nat, k: nat) returns (n2: nat, m2: nat)
    requires Good(r, p) && Related(r, p, o, n, m) && Silent(p, o, n)
    ensures n <= n2 && m + k <= m2 && Related(r, p, o, n2, m2) && Exec(Apply(r, p), o, m2).c != End
    decreases k
  {
    var n3, m3 := Push(r, p, o, n, m);
    n2, m2 := n, m;
    if k > 0 {
      assert Exec(p, o, n3).tr == Exec(p, o, n).tr;
      n2, m2 := PushMany(r, p, o, n3, m3, k - 1);
    }
  }

  lemma FollowsSilent(r: Rule, p: Block, o: Oracle, n: nat)
    requires Good(r, p) && Silent(p, o, n)
    ensures Hangs(Apply(r, p), o, Exec(p, o, n).tr)
  {
    var q := Apply(r, p);
    var m := Track(r, p, o, n);
    forall j: nat | m <= j
      ensures Exec(q, o, j).tr == Exec(q, o, m).tr && Exec(q, o, j).c != End
    {
      var n2, m2 := PushMany(r, p, o, n, m, j - m);
      assert Exec(p, o, n2).tr == Exec(p, o, n).tr;
      TraceGrows(q, o, m, j);
      TraceGrows(q, o, j, m2);
    }
    assert Silent(q, o, m);
  }

  lemma FollowsEnd(r: Rule, p: Block, o: Oracle, n: nat)
    requires Good(r, p) && Exec(p, o, n).c == End
    ensures Ends(Apply(r, p), o, Exec(p, o, n).tr)
  {
    var q := Apply(r, p);
    var m := Track(r, p, o, n);
    var d := Exec(q, o, m).c;
    var t :| Reaches(q, d, Run(t)) && Core(r, Apply(r, Nil)) == Core(r, t);
    PlainApply(r, p);
    ExecAt(q, o, m);
    ReachesAt(q, d, Run(t));
    var u := CatchUp(r, p, t);
    ReachesThen(q, d, Run(t), End);
    var k: nat :| Lag(q, d, k) == Some(End);
    ExecLag(q, o, m, k);
  }

  /** Applying a rule where its conditions hold preserves every behaviour. */
  lemma RulePreserves(r: Rule, p: Block)
    requires Good(r, p)
    ensures Equivalent(p, Apply(r, p))
  {
    forall o: Oracle
      ensures Follows(p, Apply(r, p), o)
    {
      forall n: nat
        ensures Shows(Apply(r, p), o, Exec(p, o, n).tr)
      {
        var m := Track(r, p, o, n);
      }
      forall n: nat | Exec(p, o, n).c == End
        ensures Ends(Apply(r, p), o, Exec(p, o, n).tr)
      {
        FollowsEnd(r, p, o, n);
      }
      forall n: nat | Silent(p, o, n)
        ensures Hangs(Apply(r, p), o, Exec(p, o, n).tr)
      {
        FollowsSilent(r, p, o, n);
      }
    }
    Sound(p, Apply(r, p));
  }
}
