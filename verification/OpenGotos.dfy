/** Gotos outside loops: no rewrite of loop detection moves one behind its label. */
module OpenGotos {
  import opened Wrappers
  import opened Clift
  import opened Static
  import opened Rules
  import opened Conditions
  import opened JumpLaws
  import opened NewLoop

  // ----- gotos outside loops -----

  /** The gotos of a block outside its loops. */
  function Opens(b: Block): set<(nat, nat)> {
    match b case Nil => {} case Cons(a, s) => OpensOf(a) + Opens(s)
  }

  function OpensOf(a: Stmt): set<(nat, nat)> {
    match a
    case Jump(id, kind, l) => if kind == Goto then {(id, l)} else {}
    case Nest(tag, rs) => if tag.Scope? || tag.Branch? then OpensIn(rs) else {}
    case _ => {}
  }

  function OpensIn(rs: Regions): set<(nat, nat)> {
    match rs case One(b) => Opens(b) case More(b, r) => Opens(b) + OpensIn(r)
  }

  lemma {:induction false} OpensGotos(b: Block)
    ensures Opens(b) <= Gotos(b)
  {
    if b.Cons? {
      Unfold(b.hd, b.tl);
      OpensGotos(b.tl);
      if b.hd.Nest? { OpensGotosIn(b.hd.rs); }
    }
  }

  lemma {:induction false} OpensGotosIn(rs: Regions)
    ensures OpensIn(rs) <= GotosIn(rs)
  {
    OpensGotos(rs.b);
    if rs.More? { OpensGotosIn(rs.rest); }
  }

  // ----- redirecting and erasing jumps -----

  predicate NoNewGoto(r: Rule) {
    r.Jumps? && forall id :: id in r.fate && r.fate[id].Retarget? ==> r.fate[id].kind != Goto
  }

  lemma {:induction false} JumpsShape(r: Rule, b: Block)
    requires NoNewGoto(r)
    ensures Order(Apply(r, b)) == Order(b)
    ensures Gotos(Apply(r, b)) == set pr | pr in Gotos(b) && pr.0 !in r.fate
  {
    match b
    case Nil =>
    case Cons(a, s) =>
      Unfold(a, s);
      JumpsShape(r, s);
      if Site(r, a) {
        var y := Local(r, a, Nil);
        assert Order(y) == [] && Gotos(y) == {};
        OrderApp(y, Apply(r, s));
      } else {
        Unfold(ApplyStmt(r, a), Apply(r, s));
        if a.Nest? { JumpsShapeIn(r, a.rs); }
      }
  }

  lemma {:induction false} JumpsShapeIn(r: Rule, rs: Regions)
    requires NoNewGoto(r)
    ensures OrderIn(ApplyIn(r, rs)) == OrderIn(rs)
    ensures GotosIn(ApplyIn(r, rs)) == set pr | pr in GotosIn(rs) && pr.0 !in r.fate
  {
    JumpsShape(r, rs.b);
    if rs.More? { JumpsShapeIn(r, rs.rest); }
  }

  lemma {:induction false} JumpsTail(r: Rule, l: nat, b: Block)
    requires r.Jumps?
    ensures Tail(l, Apply(r, b)) == (match Tail(l, b) case None => None case Some(s) => Some(Apply(r, s)))
  {
    match b
    case Nil =>
    case Cons(a, s) =>
      JumpsTail(r, l, s);
      if Site(r, a) {
        var y := Local(r, a, Nil);
        assert y.Cons? ==> App(y, Apply(r, s)) == Cons(y.hd, App(Nil, Apply(r, s)));
      } else if a.Nest? {
        JumpsTailIn(r, l, a.rs);
      }
  }

  lemma {:induction false} JumpsTailIn(r: Rule, l: nat, rs: Regions)
    requires r.Jumps?
    ensures TailIn(l, ApplyIn(r, rs)) == (match TailIn(l, rs) case None => None case Some(s) => Some(Apply(r, s)))
  {
    JumpsTail(r, l, rs.b);
    if rs.More? { JumpsTailIn(r, l, rs.rest); }
  }

  // ----- no backward goto appears -----

  /** Behind every label of `q` there are only gotos that stand behind it in `p`. */
  ghost predicate Shrinks(p: Block, q: Block) { forall l: nat :: ShrinksAt(p, q, l) }

  predicate ShrinksAt(p: Block, q: Block, l: nat) {
    Tail(l, q).Some? ==> Tail(l, p).Some? && Opens(Tail(l, q).value) <= Opens(Tail(l, p).value)
  }

  lemma ShrinksThen(p: Block, q: Block, r: Block)
    requires Shrinks(p, q) && Shrinks(q, r)
    ensures Shrinks(p, r)
  {
    forall l: nat ensures ShrinksAt(p, r, l) { assert ShrinksAt(p, q, l) && ShrinksAt(q, r, l); }
  }

  lemma {:induction false} OpensApp(x: Block, y: Block)
    ensures Opens(App(x, y)) == Opens(x) + Opens(y)
  {
    if x.Cons? { OpensApp(x.tl, y); }
  }

  lemma {:induction false} JumpsOpens(r: Rule, b: Block)
    requires NoNewGoto(r)
    ensures Opens(Apply(r, b)) <= Opens(b)
  {
    match b
    case Nil =>
    case Cons(a, s) =>
      JumpsOpens(r, s);
      if Site(r, a) {
        OpensApp(Local(r, a, Nil), Apply(r, s));
        assert Opens(Local(r, a, Nil)) == {};
      } else if a.Nest? {
        JumpsOpensIn(r, a.rs);
      }
  }

  lemma {:induction false} JumpsOpensIn(r: Rule, rs: Regions)
    requires NoNewGoto(r)
    ensures OpensIn(ApplyIn(r, rs)) <= OpensIn(rs)
  {
    JumpsOpens(r, rs.b);
    if rs.More? { JumpsOpensIn(r, rs.rest); }
  }

  lemma JumpsShrink(r: Rule, p: Block)
    requires NoNewGoto(r)
    ensures Shrinks(p, Apply(r, p))
  {
    forall l: nat
      ensures ShrinksAt(p, Apply(r, p), l)
    {
      JumpsTail(r, l, p);
      if Tail(l, p).Some? { JumpsOpens(r, Tail(l, p).value); }
    }
  }

  /** Dropping labels changes neither the order of statements nor the gotos. */
  lemma {:induction false} DropOpens(r: Rule, b: Block)
    requires r.DropLabels?
    ensures Opens(Apply(r, b)) == Opens(b) && Gotos(Apply(r, b)) == Gotos(b) && Names(Apply(r, b)) == Names(b)
    ensures DistinctNames(Apply(r, b)) == DistinctNames(b)
  {
    match b
    case Nil =>
    case Cons(a, s) =>
      DropOpens(r, s);
      Unfold(a, s);
      if Site(r, a) {
        assert App(Nil, Apply(r, s)) == Apply(r, s);
      } else if a.Nest? {
        DropOpensIn(r, a.rs);
        DropOpensNest(r, a, s);
      }
  }

  lemma DropOpensNest(r: Rule, a: Stmt, s: Block)
    requires r.DropLabels? && a.Nest? && !Site(r, a)
    requires var t := Apply(r, s);
             Opens(t) == Opens(s) && Gotos(t) == Gotos(s) && Names(t) == Names(s)
             && DistinctNames(t) == DistinctNames(s)
    requires var ts := ApplyIn(r, a.rs);
             OpensIn(ts) == OpensIn(a.rs) && GotosIn(ts) == GotosIn(a.rs) && NamesIn(ts) == NamesIn(a.rs)
             && DistinctNamesIn(ts) == DistinctNamesIn(a.rs)
    ensures var b, c := Cons(a, s), Apply(r, Cons(a, s));
            Opens(c) == Opens(b) && Gotos(c) == Gotos(b) && Names(c) == Names(b) && DistinctNames(c) == DistinctNames(b)
  {
    Unfold(a, s);
    Unfold(ApplyStmt(r, a), Apply(r, s));
    OpensNest(a.tag, a.rs, Retag(r, a.tag), ApplyIn(r, a.rs));
  }

  lemma OpensNest(tag: Tag, rs: Regions, tag2: Tag, ts: Regions)
    requires OpensIn(rs) == OpensIn(ts) && (tag.Scope? <==> tag2.Scope?) && (tag.Branch? <==> tag2.Branch?)
    ensures OpensOf(Nest(tag, rs)) == OpensOf(Nest(tag2, ts))
  {}

  lemma {:induction false} DropOpensIn(r: Rule, rs: Regions)
    requires r.DropLabels?
    ensures OpensIn(ApplyIn(r, rs)) == OpensIn(rs) && GotosIn(ApplyIn(r, rs)) == GotosIn(rs)
    ensures NamesIn(ApplyIn(r, rs)) == NamesIn(rs)
    ensures DistinctNamesIn(ApplyIn(r, rs)) == DistinctNamesIn(rs)
  {
    DropOpens(r, rs.b);
    if rs.More? { DropOpensIn(r, rs.rest); }
  }

  lemma {:induction false} DropTail(r: Rule, l: nat, b: Block)
    requires r.DropLabels? && l !in r.dead
    ensures Tail(l, Apply(r, b)) == (match Tail(l, b) case None => None case Some(s) => Some(Apply(r, s)))
  {
    match b
    case Nil =>
    case Cons(a, s) =>
      DropTail(r, l, s);
      if Site(r, a) {
        assert App(Nil, Apply(r, s)) == Apply(r, s);
      } else if a.Nest? {
        DropTailIn(r, l, a.rs);
      }
  }

  lemma {:induction false} DropTailIn(r: Rule, l: nat, rs: Regions)
    requires r.DropLabels? && l !in r.dead
    ensures TailIn(l, ApplyIn(r, rs)) == (match TailIn(l, rs) case None => None case Some(s) => Some(Apply(r, s)))
  {
    DropTail(r, l, rs.b);
    if rs.More? { DropTailIn(r, l, rs.rest); }
  }

  lemma {:induction false} DropGone(r: Rule, l: nat, b: Block)
    requires r.DropLabels? && l in r.dead
    ensures Tail(l, Apply(r, b)) == None
  {
    match b
    case Nil =>
    case Cons(a, s) =>
      DropGone(r, l, s);
      if Site(r, a) {
        assert App(Nil, Apply(r, s)) == Apply(r, s);
      } else if a.Nest? {
        DropGoneIn(r, l, a.rs);
      }
  }

  lemma {:induction false} DropGoneIn(r: Rule, l: nat, rs: Regions)
    requires r.DropLabels? && l in r.dead
    ensures TailIn(l, ApplyIn(r, rs)) == None
  {
    DropGone(r, l, rs.b);
    if rs.More? { DropGoneIn(r, l, rs.rest); }
  }

  lemma DropShrinks(r: Rule, p: Block)
    requires r.DropLabels?
    ensures Shrinks(p, Apply(r, p))
  {
    forall l: nat
      ensures ShrinksAt(p, Apply(r, p), l)
    {
      if l in r.dead {
        DropGone(r, l, p);
      } else {
        DropTail(r, l, p);
        if Tail(l, p).Some? { DropOpens(r, Tail(l, p).value); }
      }
    }
  }

  /** Cutting off the end of a block. */
  lemma {:induction false} TailCut(l: nat, x: Block, y: Block, z: Block)
    requires Tail(l, x).Some? && Opens(y) <= Opens(z)
    ensures Tail(l, App(x, y)).Some? && Tail(l, App(x, z)).Some?
    ensures Opens(Tail(l, App(x, y)).value) <= Opens(Tail(l, App(x, z)).value)
  {
    var Cons(a, s) := x;
    if a == Label(l) {
      OpensApp(s, y);
      OpensApp(s, z);
    } else if a.Nest? && TailIn(l, a.rs).Some? {
    } else {
      TailCut(l, s, y, z);
    }
  }

  lemma {:induction false} TailBeyond(l: nat, x: Block, y: Block)
    requires Tail(l, x) == None
    ensures Tail(l, App(x, y)) == Tail(l, y)
  {
    if x.Cons? { TailBeyond(l, x.tl, y); }
  }

  lemma EnloopSiteShrinks(r: Rule, s: Block, l: nat)
    requires FreshFor(r, s) && LeavesByBreak(r) && r.n <= Len(s) && r.l !in Labels(s) && Plain(s)
    requires Tail(l, Apply(r, Cons(Label(r.l), s))).Some?
    ensures Tail(l, Cons(Label(r.l), s)).Some?
    ensures Opens(Tail(l, Apply(r, Cons(Label(r.l), s))).value) <= Opens(Tail(l, Cons(Label(r.l), s)).value)
  {
    EnloopHere(r, s);
    var m, v, rest := Take(r.n, s), LeaveBlock(r.leave), Drop(r.n, s);
    TakeDrop(r.n, s);
    OpensApp(m, rest);
    assert Opens(v) == {} && Tail(l, v) == None;
    if l != r.l {
      assert TailIn(l, LoopOf(r, s).rs) == Tail(l, App(m, v));
      if Tail(l, m).Some? { TailCut(l, m, v, rest); } else { TailBeyond(l, m, v); TailBeyond(l, m, rest); }
    }
  }

  lemma {:induction false} EnloopOpens(r: Rule, b: Block)
    requires FreshFor(r, b) && LeavesByBreak(r) && Plain(b) && Distinct(b) && Ok(r, b)
    ensures Opens(Apply(r, b)) <= Opens(b)
  {
    match b
    case Nil =>
    case Cons(a, s) =>
      Unfold(a, s);
      if a == Label(r.l) {
        EnloopHere(r, s);
        TakeDrop(r.n, s);
        OpensApp(Take(r.n, s), Drop(r.n, s));
        assert Opens(Cons(LoopOf(r, s), Drop(r.n, s))) == OpensOf(LoopOf(r, s)) + Opens(Drop(r.n, s));
      } else {
        EnloopOpens(r, s);
        if a.Nest? { EnloopOpensIn(r, a.rs); }
      }
  }

  lemma {:induction false} EnloopOpensIn(r: Rule, rs: Regions)
    requires FreshForIn(r, rs) && LeavesByBreak(r) && PlainIn(rs) && DistinctIn(rs) && OkIn(r, rs)
    ensures OpensIn(ApplyIn(r, rs)) <= OpensIn(rs)
  {
    EnloopOpens(r, rs.b);
    if rs.More? { EnloopOpensIn(r, rs.rest); }
  }

  lemma {:induction false} EnloopShrinks(r: Rule, b: Block, l: nat)
    requires FreshFor(r, b) && LeavesByBreak(r) && Plain(b) && Distinct(b) && Ok(r, b) && Tail(l, Apply(r, b)).Some?
    ensures Tail(l, b).Some? && Opens(Tail(l, Apply(r, b)).value) <= Opens(Tail(l, b).value)
  {
    var Cons(a, s) := b;
    Unfold(a, s);
    if a == Label(r.l) {
      EnloopSiteShrinks(r, s, l);
    } else if a == Label(l) {
      EnloopOpens(r, s);
    } else {
      if a.Nest? {
        OrderApplyIn(r, a.rs);
        TailOrderIn(l, a.rs);
        TailOrderIn(l, ApplyIn(r, a.rs));
      }
      if a.Nest? && TailIn(l, ApplyIn(r, a.rs)).Some? { EnloopShrinksIn(r, a.rs, l); } else { EnloopShrinks(r, s, l); }
    }
  }

  lemma {:induction false} EnloopShrinksIn(r: Rule, rs: Regions, l: nat)
    requires FreshForIn(r, rs) && LeavesByBreak(r) && PlainIn(rs) && DistinctIn(rs) && OkIn(r, rs)
    requires TailIn(l, ApplyIn(r, rs)).Some?
    ensures TailIn(l, rs).Some? && Opens(TailIn(l, ApplyIn(r, rs)).value) <= Opens(TailIn(l, rs).value)
  {
    OrderApply(r, rs.b);
    TailOrder(l, rs.b);
    TailOrder(l, Apply(r, rs.b));
    if Tail(l, Apply(r, rs.b)).Some? { EnloopShrinks(r, rs.b, l); } else { EnloopShrinksIn(r, rs.rest, l); }
  }

  lemma EnloopShrinksAll(r: Rule, p: Block)
    requires FreshFor(r, p) && LeavesByBreak(r) && Plain(p) && Distinct(p) && Ok(r, p)
    ensures Shrinks(p, Apply(r, p))
  {
    forall l: nat
      ensures ShrinksAt(p, Apply(r, p), l)
    {
      if Tail(l, Apply(r, p)).Some? { EnloopShrinks(r, p, l); }
    }
  }
}
