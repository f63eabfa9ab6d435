/** What holds at every position of a program that a run can reach. */
module Places {
  import opened Wrappers
  import opened Clift
  import opened Static
  import opened Rules
  import opened Conditions
  import opened Lookup

  // ----- side conditions -----

  lemma {:induction false} CleanOk(r: Rule, b: Block)
    requires Clean(r, b)
    ensures Ok(r, b)
  {
    if b.Cons? {
      CleanOk(r, b.tl);
      if b.hd.Nest? { CleanOkIn(r, b.hd.rs); }
    }
  }

  lemma {:induction false} CleanOkIn(r: Rule, rs: Regions)
    requires CleanIn(r, rs)
    ensures OkIn(r, rs)
  {
    CleanOk(r, rs.b);
    if rs.More? { CleanOkIn(r, rs.rest); }
  }

  lemma {:induction false} LenApp(x: Block, y: Block)
    ensures Len(App(x, y)) == Len(x) + Len(y)
  {
    if x.Cons? { LenApp(x.tl, y); }
  }

  lemma SiteOkApp(r: Rule, a: Stmt, s: Block, k: Block)
    requires Site(r, a) && SiteOk(r, a, s)
    ensures SiteOk(r, a, App(s, k))
  {
    SpanFits(r, a, s);
    LenApp(s, k);
    TakeDropApp(Span(r), s, k);
  }

  ghost predicate OkHere(r: Rule, a: Stmt, s: Block) {
    && Fresh(r, a)
    && (if Site(r, a) then SiteOk(r, a, s) else a.Nest? ==> OkIn(r, a.rs))
  }

  lemma {:induction false} OkAt(r: Rule, a: Stmt, s: Block, b: Block, k: Block)
    requires IsCont(Cons(a, s), b, k) && Ok(r, b) && !a.Again?
    ensures OkHere(r, a, s)
  {
    var Cons(c, t) := b;
    if Cons(a, s) == App(b, k) {
      assert a == c && s == App(t, k);
      if Site(r, a) { SiteOkApp(r, a, t, k); }
    } else if IsCont(Cons(a, s), t, k) {
      OkAt(r, a, s, t, k);
    } else {
      if Site(r, c) { CleanOkIn(r, c.rs); }
      OkAtIn(r, a, s, c.rs, Inner(c, App(t, k)));
    }
  }

  lemma {:induction false} OkAtIn(r: Rule, a: Stmt, s: Block, rs: Regions, k: Block)
    requires IsContIn(Cons(a, s), rs, k) && OkIn(r, rs) && !a.Again?
    ensures OkHere(r, a, s)
  {
    if IsCont(Cons(a, s), rs.b, k) { OkAt(r, a, s, rs.b, k); } else { OkAtIn(r, a, s, rs.rest, k); }
  }

  // ----- jumps -----

  function SkipLabels(b: Block): Block {
    if b.Cons? && b.hd.Label? then SkipLabels(b.tl) else b
  }

  /** The jump `a`, followed by `s` in program `p`, may be treated as rule `r` treats it. */
  predicate SaneJump(r: Rule, p: Block, a: Stmt, s: Block)
    requires a.Jump?
  {
    if Site(r, a) then
      match r.fate[a.id]
      case Erase => SkipLabels(s) == SkipLabels(Target(p, a.l))
      case Retarget(_, l) => l in Labels(p) && SkipLabels(Target(p, a.l)) == SkipLabels(Target(p, l))
    else a.l in Labels(p) && a.l !in Lost(r)
  }

  predicate Sane(r: Rule, p: Block, b: Block, k: Block) {
    match b
    case Nil => true
    case Cons(a, s) =>
      && (a.Jump? ==> SaneJump(r, p, a, App(s, k)))
      && (a.Nest? ==> SaneIn(r, p, a.rs, Inner(a, App(s, k))))
      && Sane(r, p, s, k)
  }

  predicate SaneIn(r: Rule, p: Block, rs: Regions, k: Block) {
    match rs
    case One(b) => Sane(r, p, b, k)
    case More(b, t) => Sane(r, p, b, k) && SaneIn(r, p, t, k)
  }

  lemma {:induction false} SaneAt(r: Rule, p: Block, a: Stmt, s: Block, b: Block, k: Block)
    requires IsCont(Cons(a, s), b, k) && Sane(r, p, b, k) && a.Jump?
    ensures SaneJump(r, p, a, s)
  {
    var Cons(c, t) := b;
    if Cons(a, s) == App(b, k) {
      assert a == c && s == App(t, k);
    } else if IsCont(Cons(a, s), t, k) {
      SaneAt(r, p, a, s, t, k);
    } else {
      SaneAtIn(r, p, a, s, c.rs, Inner(c, App(t, k)));
    }
  }

  lemma {:induction false} SaneAtIn(r: Rule, p: Block, a: Stmt, s: Block, rs: Regions, k: Block)
    requires IsContIn(Cons(a, s), rs, k) && SaneIn(r, p, rs, k) && a.Jump?
    ensures SaneJump(r, p, a, s)
  {
    if IsCont(Cons(a, s), rs.b, k) { SaneAt(r, p, a, s, rs.b, k); } else { SaneAtIn(r, p, a, s, rs.rest, k); }
  }

  // ----- labels -----

  lemma {:induction false} LabelsAt(a: Stmt, s: Block, b: Block, k: Block)
    requires IsCont(Cons(a, s), b, k)
    ensures LabelsOf(a) <= Labels(b)
  {
    var Cons(c, t) := b;
    if Cons(a, s) == App(b, k) {
    } else if IsCont(Cons(a, s), t, k) {
      LabelsAt(a, s, t, k);
    } else if c.Nest? && IsContIn(Cons(a, s), c.rs, Inner(c, App(t, k))) {
      LabelsAtIn(a, s, c.rs, Inner(c, App(t, k)));
    }
  }

  lemma {:induction false} LabelsAtIn(a: Stmt, s: Block, rs: Regions, k: Block)
    requires IsContIn(Cons(a, s), rs, k)
    ensures LabelsOf(a) <= LabelsIn(rs)
  {
    if IsCont(Cons(a, s), rs.b, k) { LabelsAt(a, s, rs.b, k); } else { LabelsAtIn(a, s, rs.rest, k); }
  }

  /** Where the label `l` of statement `a`, followed by `s`, leads. */
  ghost predicate LeadsTo(l: nat, a: Stmt, s: Block, f: Block) {
    || (a == Label(l) && f == Cons(a, s))
    || (a.Nest? && BreakLabel(a.tag) == Some(l) && f == s)
    || (a.Nest? && BreakLabel(a.tag) != Some(l) && ContinueLabel(a.tag) == Some(l) && f == Inner(a, s))
  }

  /** With distinct labels, lookup finds the continuation of the very position met in the run. */
  lemma {:induction false} FindHere(l: nat, a: Stmt, s: Block, f: Block, b: Block, k: Block)
    requires IsCont(Cons(a, s), b, k) && Distinct(b) && LeadsTo(l, a, s, f)
    ensures Find(l, b, k) == Some(f)
  {
    var Cons(c, t) := b;
    LabelsAt(a, s, b, k);
    if Cons(a, s) == App(b, k) {
      assert a == c && s == App(t, k);
    } else if IsCont(Cons(a, s), t, k) {
      LabelsAt(a, s, t, k);
      FindHere(l, a, s, f, t, k);
      if c.Nest? { FindLabelIn(l, c.rs, Inner(c, App(t, k))); }
    } else {
      LabelsAtIn(a, s, c.rs, Inner(c, App(t, k)));
      FindHereIn(l, a, s, f, c.rs, Inner(c, App(t, k)));
    }
  }

  lemma {:induction false} FindHereIn(l: nat, a: Stmt, s: Block, f: Block, rs: Regions, k: Block)
    requires IsContIn(Cons(a, s), rs, k) && DistinctIn(rs) && LeadsTo(l, a, s, f)
    ensures FindIn(l, rs, k) == Some(f)
  {
    if IsCont(Cons(a, s), rs.b, k) {
      FindHere(l, a, s, f, rs.b, k);
    } else {
      LabelsAtIn(a, s, rs.rest, k);
      FindLabel(l, rs.b, k);
      FindHereIn(l, a, s, f, rs.rest, k);
    }
  }

  // ----- the leaving jump of a new loop -----

  lemma {:induction false} IsContApp(s: Block, x: Block, y: Block, k: Block)
    requires IsCont(s, App(x, y), k)
    ensures IsCont(s, x, App(y, k)) || IsCont(s, y, k)
  {
    if x.Cons? {
      AppAssoc(x, y, k);
      AppAssoc(x.tl, y, k);
      if IsCont(s, App(x.tl, y), k) { IsContApp(s, x.tl, y, k); }
    }
  }

  lemma {:induction false} NoLeaveAt(r: Rule, a: Stmt, s: Block, b: Block, k: Block)
    requires IsCont(Cons(a, s), b, k) && Clean(r, b)
    ensures !Leaves(r, a)
  {
    if !a.Again? {
      CleanOk(r, b);
      OkAt(r, a, s, b, k);
    }
  }

  lemma {:induction false} LeaveNext(r: Rule, j: Stmt, s: Block, b: Block, k: Block)
    requires Ok(r, b) && IsCont(Cons(j, s), Apply(r, b), k) && Leaves(r, j)
    ensures s.Cons? && s.hd.Nest? && LeavesBy(s.hd.tag, j)
    decreases Size(b)
  {
    var Cons(a, t) := b;
    if Site(r, a) {
      var m, rest := Take(r.n, t), Drop(r.n, t);
      SizeDrop(r.n, t);
      OkDrop(r, r.n, t);
      IsContApp(Cons(j, s), Local(r, a, m), Apply(r, rest), k);
      if IsCont(Cons(j, s), Apply(r, rest), k) {
        LeaveNext(r, j, s, rest, k);
      } else {
        LeaveSite(r, j, s, a, m, App(Apply(r, rest), k));
      }
    } else {
      var a2 := ApplyStmt(r, a);
      if IsCont(Cons(j, s), Apply(r, t), k) {
        LeaveNext(r, j, s, t, k);
      } else {
        assert SizeOf(a) == 1 + SizeIn(a.rs);
        LeaveNextIn(r, j, s, a.rs, Inner(a2, App(Apply(r, t), k)));
      }
    }
  }

  lemma {:induction false} LeaveNextIn(r: Rule, j: Stmt, s: Block, rs: Regions, k: Block)
    requires OkIn(r, rs) && IsContIn(Cons(j, s), ApplyIn(r, rs), k) && Leaves(r, j)
    ensures s.Cons? && s.hd.Nest? && LeavesBy(s.hd.tag, j)
    decreases SizeIn(rs)
  {
    if IsCont(Cons(j, s), Apply(r, rs.b), k) { LeaveNext(r, j, s, rs.b, k); } else { LeaveNextIn(r, j, s, rs.rest, k); }
  }

  lemma LeaveSite(r: Rule, j: Stmt, s: Block, a: Stmt, m: Block, k: Block)
    requires r.Enloop? && Site(r, a) && Clean(r, m) && r.tag.While? && Leaves(r, j) && LeavesBy(r.tag, r.leave.value)
    requires IsCont(Cons(j, s), Local(r, a, m), k)
    ensures s.Cons? && s.hd.Nest? && LeavesBy(s.hd.tag, j)
  {
    var body := App(m, LeaveBlock(r.leave));
    var loop := Nest(r.tag, One(body));
    assert Local(r, a, m) == Cons(a, Single(loop));
    assert IsCont(Cons(j, s), Single(loop), k);
    assert App(Single(loop), k) == Cons(loop, k);
    assert App(Nil, k) == k && Inner(loop, k) == Cons(loop, k) && !IsCont(Cons(j, s), Nil, k);
    assert IsContIn(Cons(j, s), loop.rs, Inner(loop, App(Nil, k)));
    assert IsCont(Cons(j, s), body, Cons(loop, k));
    IsContApp(Cons(j, s), m, LeaveBlock(r.leave), Cons(loop, k));
    if IsCont(Cons(j, s), m, App(LeaveBlock(r.leave), Cons(loop, k))) {
      NoLeaveAt(r, j, s, m, App(LeaveBlock(r.leave), Cons(loop, k)));
    } else {
      assert Cons(j, s) == App(Single(r.leave.value), Cons(loop, k));
      assert App(Single(r.leave.value), Cons(loop, k)) == Cons(r.leave.value, App(Nil, Cons(loop, k)));
    }
  }
}
