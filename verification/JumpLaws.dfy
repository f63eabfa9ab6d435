/** Laws of the rule that erases and redirects jumps by name. */
module JumpLaws {
  import opened Wrappers
  import opened Clift
  import opened Static
  import opened Rules
  import opened Conditions
  import opened Sites
  import opened Preserve
  import opened Places
  import opened WellFormed
  import opened InPlace
  import opened Branches
  import opened Positions

  // ----- jump names -----

  function Names(b: Block): set<nat> {
    match b case Nil => {} case Cons(a, s) => NamesOf(a) + Names(s)
  }

  function NamesOf(a: Stmt): set<nat> {
    match a case Jump(id, _, _) => {id} case Nest(_, rs) => NamesIn(rs) case _ => {}
  }

  function NamesIn(rs: Regions): set<nat> {
    match rs case One(b) => Names(b) case More(b, r) => Names(b) + NamesIn(r)
  }

  predicate DistinctNames(b: Block) {
    match b
    case Nil => true
    case Cons(a, s) => NamesOf(a) !! Names(s) && (a.Nest? ==> DistinctNamesIn(a.rs)) && DistinctNames(s)
  }

  predicate DistinctNamesIn(rs: Regions) {
    match rs
    case One(b) => DistinctNames(b)
    case More(b, r) => Names(b) !! NamesIn(r) && DistinctNames(b) && DistinctNamesIn(r)
  }

  lemma {:induction false} NamesApp(x: Block, y: Block)
    ensures Names(App(x, y)) == Names(x) + Names(y)
    ensures DistinctNames(App(x, y)) <==> DistinctNames(x) && DistinctNames(y) && Names(x) !! Names(y)
  {
    if x.Cons? { NamesApp(x.tl, y); }
  }

  lemma {:induction false} NamesAt(a: Stmt, s: Block, b: Block, k: Block)
    requires IsCont(Cons(a, s), b, k) && a.Jump?
    ensures a.id in Names(b)
  {
    var Cons(c, t) := b;
    if Cons(a, s) == App(b, k) {
    } else if IsCont(Cons(a, s), t, k) {
      NamesAt(a, s, t, k);
    } else {
      NamesAtIn(a, s, c.rs, Inner(c, App(t, k)));
    }
  }

  lemma {:induction false} NamesAtIn(a: Stmt, s: Block, rs: Regions, k: Block)
    requires IsContIn(Cons(a, s), rs, k) && a.Jump?
    ensures a.id in NamesIn(rs)
  {
    if IsCont(Cons(a, s), rs.b, k) { NamesAt(a, s, rs.b, k); } else { NamesAtIn(a, s, rs.rest, k); }
  }

  /** A jump stands at one position only. */
  lemma {:induction false} JumpOnce(a: Stmt, s: Block, c: Stmt, t: Block, b: Block, k: Block)
    requires IsCont(Cons(a, s), b, k) && IsCont(Cons(c, t), b, k) && DistinctNames(b)
    requires a.Jump? && c.Jump? && a.id == c.id
    ensures a == c && s == t
  {
    var Cons(d, u) := b;
    if IsCont(Cons(a, s), u, k) { NamesAt(a, s, u, k); }
    if IsCont(Cons(c, t), u, k) { NamesAt(c, t, u, k); }
    if d.Nest? && IsContIn(Cons(a, s), d.rs, Inner(d, App(u, k))) { NamesAtIn(a, s, d.rs, Inner(d, App(u, k))); }
    if d.Nest? && IsContIn(Cons(c, t), d.rs, Inner(d, App(u, k))) { NamesAtIn(c, t, d.rs, Inner(d, App(u, k))); }
    if IsCont(Cons(a, s), u, k) {
      JumpOnce(a, s, c, t, u, k);
    } else if d.Nest? {
      JumpOnceIn(a, s, c, t, d.rs, Inner(d, App(u, k)));
    }
  }

  lemma {:induction false} JumpOnceIn(a: Stmt, s: Block, c: Stmt, t: Block, rs: Regions, k: Block)
    requires IsContIn(Cons(a, s), rs, k) && IsContIn(Cons(c, t), rs, k) && DistinctNamesIn(rs)
    requires a.Jump? && c.Jump? && a.id == c.id
    ensures a == c && s == t
  {
    if IsCont(Cons(a, s), rs.b, k) {
      NamesAt(a, s, rs.b, k);
      if !IsCont(Cons(c, t), rs.b, k) { NamesAtIn(c, t, rs.rest, k); }
      JumpOnce(a, s, c, t, rs.b, k);
    } else {
      NamesAtIn(a, s, rs.rest, k);
      if IsCont(Cons(c, t), rs.b, k) { NamesAt(c, t, rs.b, k); }
      JumpOnceIn(a, s, c, t, rs.rest, k);
    }
  }

  // ----- conditions from positions -----

  ghost predicate SaneHere(r: Rule, p: Block, a: Stmt, s: Block, b: Block, k: Block) {
    a.Jump? && IsCont(Cons(a, s), b, k) ==> SaneJump(r, p, a, s)
  }

  ghost predicate SaneHereIn(r: Rule, p: Block, a: Stmt, s: Block, rs: Regions, k: Block) {
    a.Jump? && IsContIn(Cons(a, s), rs, k) ==> SaneJump(r, p, a, s)
  }

  lemma {:induction false} SaneFromAt(r: Rule, p: Block, b: Block, k: Block)
    requires forall a: Stmt, s: Block :: SaneHere(r, p, a, s, b, k)
    ensures Sane(r, p, b, k)
  {
    match b
    case Nil =>
    case Cons(c, t) =>
      forall a: Stmt, s: Block ensures SaneHere(r, p, a, s, t, k) { assert SaneHere(r, p, a, s, b, k); }
      SaneFromAt(r, p, t, k);
      assert SaneHere(r, p, c, App(t, k), b, k);
      if c.Nest? {
        var k1 := Inner(c, App(t, k));
        forall a: Stmt, s: Block ensures SaneHereIn(r, p, a, s, c.rs, k1) { assert SaneHere(r, p, a, s, b, k); }
        SaneFromAtIn(r, p, c.rs, k1);
      }
  }

  lemma {:induction false} SaneFromAtIn(r: Rule, p: Block, rs: Regions, k: Block)
    requires forall a: Stmt, s: Block :: SaneHereIn(r, p, a, s, rs, k)
    ensures SaneIn(r, p, rs, k)
  {
    forall a: Stmt, s: Block ensures SaneHere(r, p, a, s, rs.b, k) { assert SaneHereIn(r, p, a, s, rs, k); }
    SaneFromAt(r, p, rs.b, k);
    if rs.More? {
      forall a: Stmt, s: Block ensures SaneHereIn(r, p, a, s, rs.rest, k) { assert SaneHereIn(r, p, a, s, rs, k); }
      SaneFromAtIn(r, p, rs.rest, k);
    }
  }

  lemma {:induction false} TargetsAt(a: Stmt, s: Block, b: Block, k: Block)
    requires IsCont(Cons(a, s), b, k) && a.Jump?
    ensures a.l in Targets(b)
  {
    var Cons(c, t) := b;
    if Cons(a, s) == App(b, k) {
    } else if IsCont(Cons(a, s), t, k) {
      TargetsAt(a, s, t, k);
    } else {
      TargetsAtIn(a, s, c.rs, Inner(c, App(t, k)));
    }
  }

  lemma {:induction false} TargetsAtIn(a: Stmt, s: Block, rs: Regions, k: Block)
    requires IsContIn(Cons(a, s), rs, k) && a.Jump?
    ensures a.l in TargetsIn(rs)
  {
    if IsCont(Cons(a, s), rs.b, k) { TargetsAt(a, s, rs.b, k); } else { TargetsAtIn(a, s, rs.rest, k); }
  }

  // ----- exact lookup -----

  lemma {:induction false} JumpsApp(r: Rule, x: Block, y: Block)
    requires r.Jumps?
    ensures Apply(r, App(x, y)) == App(Apply(r, x), Apply(r, y))
  {
    if x.Cons? {
      JumpsApp(r, x.tl, y);
      if Site(r, x.hd) { AppAssoc(Local(r, x.hd, Nil), Apply(r, x.tl), Apply(r, y)); }
    }
  }

  lemma JumpsInner(r: Rule, a: Stmt, k: Block)
    requires r.Jumps? && a.Nest?
    ensures Apply(r, Inner(a, k)) == Inner(ApplyStmt(r, a), Apply(r, k))
  {}

  lemma {:induction false} JumpsFind(r: Rule, l: nat, b: Block, k: Block)
    requires r.Jumps?
    ensures Find(l, Apply(r, b), Apply(r, k))
        == (match Find(l, b, k) case None => None case Some(f) => Some(Apply(r, f)))
  {
    match b
    case Nil =>
    case Cons(a, s) =>
      JumpsFind(r, l, s, k);
      JumpsApp(r, s, k);
      if Site(r, a) {
        FindApp(l, Local(r, a, Nil), Apply(r, s), Apply(r, k));
        assert Find(l, Local(r, a, Nil), App(Apply(r, s), Apply(r, k))) == None;
      } else if a.Nest? {
        JumpsApp(r, b, k);
        JumpsInner(r, a, App(s, k));
        JumpsFindIn(r, l, a.rs, Inner(a, App(s, k)));
      } else {
        JumpsApp(r, b, k);
      }
  }

  lemma {:induction false} JumpsFindIn(r: Rule, l: nat, rs: Regions, k: Block)
    requires r.Jumps?
    ensures FindIn(l, ApplyIn(r, rs), Apply(r, k))
        == (match FindIn(l, rs, k) case None => None case Some(f) => Some(Apply(r, f)))
  {
    JumpsFind(r, l, rs.b, k);
    if rs.More? { JumpsFindIn(r, l, rs.rest, k); }
  }

  lemma JumpsTarget(r: Rule, p: Block, l: nat)
    requires r.Jumps?
    ensures Target(Apply(r, p), l) == Apply(r, Target(p, l))
  {
    JumpsFind(r, l, p, Nil);
  }

  // ----- form -----

  /** The labels to which the rule redirects jumps. */
  ghost function Redirected(r: Rule): set<nat>
    requires r.Jumps?
  {
    set id | id in r.fate && r.fate[id].Retarget? :: r.fate[id].l
  }

  lemma {:induction false} JumpsForm(r: Rule, b: Block)
    requires r.Jumps?
    ensures var c := Apply(r, b);
            && Labels(c) == Labels(b) && Ops(c) == Ops(b) && (DistinctOps(b) ==> DistinctOps(c))
            && Targets(c) <= Targets(b) + Redirected(r) && Names(c) <= Names(b)
            && (DistinctNames(b) ==> DistinctNames(c))
  {
    match b
    case Nil =>
    case Cons(a, s) =>
      JumpsForm(r, s);
      if Site(r, a) {
        var y := Local(r, a, Nil);
        if y.Cons? { JumpSets(y.hd); }
        assert Targets(y) <= Redirected(r);
        LabelsApp(y, Apply(r, s));
        OpsApp(y, Apply(r, s));
        DistinctOpsJoinIf(y, Apply(r, s));
        NamesApp(y, Apply(r, s));
      } else if a.Nest? {
        JumpsFormIn(r, a.rs);
        assert Apply(r, b) == Cons(Nest(a.tag, ApplyIn(r, a.rs)), Apply(r, s));
        NestSets(a.tag, a.rs, s);
        NestSets(a.tag, ApplyIn(r, a.rs), Apply(r, s));
      }
  }

  lemma JumpSets(j: Stmt)
    requires j.Jump?
    ensures var b := Single(j);
            && Labels(b) == {} && Ops(b) == {} && Targets(b) == {j.l} && Names(b) == {j.id}
            && Distinct(b) && DistinctOps(b) && DistinctNames(b)
  {
    assert Ops(Single(j)) == OpsOf(j) + Ops(Nil) && Labels(Single(j)) == LabelsOf(j) + Labels(Nil);
    assert Targets(Single(j)) == TargetsOf(j) + Targets(Nil) && Names(Single(j)) == NamesOf(j) + Names(Nil);
  }

  lemma DistinctOpsJoinIf(x: Block, y: Block)
    requires DistinctOps(x) && Ops(x) == {}
    ensures DistinctOps(y) ==> DistinctOps(App(x, y))
  {
    if DistinctOps(y) { DistinctOpsJoin(x, y); }
  }

  lemma {:induction false} JumpsFormIn(r: Rule, rs: Regions)
    requires r.Jumps?
    ensures var c := ApplyIn(r, rs);
            && LabelsIn(c) == LabelsIn(rs) && OpsIn(c) == OpsIn(rs) && (DistinctOpsIn(rs) ==> DistinctOpsIn(c))
            && TargetsIn(c) <= TargetsIn(rs) + Redirected(r) && NamesIn(c) <= NamesIn(rs)
            && (DistinctNamesIn(rs) ==> DistinctNamesIn(c))
  {
    JumpsForm(r, rs.b);
    if rs.More? { JumpsFormIn(r, rs.rest); }
  }

  lemma JumpsKeeps(r: Rule, p: Block)
    requires r.Jumps? && WF(p) && DistinctNames(p) && Redirected(r) <= Labels(p)
    ensures WF(Apply(r, p)) && DistinctNames(Apply(r, p)) && Labels(Apply(r, p)) == Labels(p)
  {
    JumpsOk(r, p);
    PlainApply(r, p);
    DistinctApply(r, p);
    JumpsForm(r, p);
  }
}
