/** When a rule may be applied, and the normal form of continuations that all rules preserve. */
module Conditions {
  import opened Wrappers
  import opened Clift
  import opened Rules

  // ----- labels -----

  function OptSet(l: Option<nat>): set<nat> {
    match l case None => {} case Some(x) => {x}
  }

  function TagLabels(tag: Tag): set<nat> {
    OptSet(BreakLabel(tag)) + OptSet(ContinueLabel(tag))
  }

  /** The labels assigned in a block. */
  function Labels(b: Block): set<nat> {
    match b
    case Nil => {}
    case Cons(a, s) => LabelsOf(a) + Labels(s)
  }

  function LabelsOf(a: Stmt): set<nat> {
    match a
    case Label(l) => {l}
    case Nest(tag, rs) => TagLabels(tag) + LabelsIn(rs)
    case _ => {}
  }

  function LabelsIn(rs: Regions): set<nat> {
    match rs
    case One(b) => Labels(b)
    case More(b, r) => Labels(b) + LabelsIn(r)
  }

  /** No label is assigned twice. */
  predicate Distinct(b: Block) {
    match b
    case Nil => true
    case Cons(a, s) => LabelsOf(a) !! Labels(s) && DistinctOf(a) && Distinct(s)
  }

  predicate DistinctOf(a: Stmt) {
    match a
    case Nest(tag, rs) =>
      && DistinctIn(rs) && TagLabels(tag) !! LabelsIn(rs)
      && (BreakLabel(tag).Some? ==> BreakLabel(tag) != ContinueLabel(tag))
    case _ => true
  }

  predicate DistinctIn(rs: Regions) {
    match rs
    case One(b) => Distinct(b)
    case More(b, r) => Labels(b) !! LabelsIn(r) && Distinct(b) && DistinctIn(r)
  }

  lemma {:induction false} FindLabel(l: nat, b: Block, k: Block)
    ensures Find(l, b, k).Some? <==> l in Labels(b)
  {
    match b
    case Nil =>
    case Cons(a, s) =>
      FindLabel(l, s, k);
      if a.Nest? { FindLabelIn(l, a.rs, Inner(a, App(s, k))); }
  }

  lemma {:induction false} FindLabelIn(l: nat, rs: Regions, k: Block)
    ensures FindIn(l, rs, k).Some? <==> l in LabelsIn(rs)
  {
    FindLabel(l, rs.b, k);
    if rs.More? { FindLabelIn(l, rs.rest, k); }
  }

  lemma {:induction false} FindApp(l: nat, x: Block, y: Block, k: Block)
    ensures Find(l, App(x, y), k)
         == if Find(l, x, App(y, k)).Some? then Find(l, x, App(y, k)) else Find(l, y, k)
  {
    match x
    case Nil =>
    case Cons(a, s) =>
      AppAssoc(x, y, k);
      AppAssoc(s, y, k);
      FindApp(l, s, y, k);
  }

  // ----- sites inside a rewritten statement -----

  /** The statement uses none of the identities and labels that the rule introduces. */
  predicate Fresh(r: Rule, a: Stmt) {
    r.Enloop? ==>
      && (a.Jump? && r.leave.Some? && r.leave.value.Jump? ==> a.id != r.leave.value.id)
      && (a.Label? ==> a.l !in TagLabels(r.tag))
      && (a.Nest? ==> TagLabels(a.tag) !! TagLabels(r.tag))
  }

  /** No site in the block. */
  predicate Clean(r: Rule, b: Block) {
    match b
    case Nil => true
    case Cons(a, s) => CleanStmt(r, a) && Clean(r, s)
  }

  predicate CleanStmt(r: Rule, a: Stmt) {
    && !Site(r, a) && Fresh(r, a) && !a.Again?
    && (a.Nest? ==> CleanIn(r, a.rs) && Retag(r, a.tag) == a.tag)
  }

  predicate CleanIn(r: Rule, rs: Regions) {
    match rs
    case One(b) => Clean(r, b)
    case More(b, t) => Clean(r, b) && CleanIn(r, t)
  }

  // ----- side conditions -----

  /** Every region but number `i` stops. */
  predicate OthersStop(rs: Regions, i: nat) {
    match rs
    case One(b) => i == 0 || NoFallEnd(b)
    case More(b, r) => if i == 0 then NoFallAll(r) else NoFallEnd(b) && OthersStop(r, i - 1)
  }

  predicate TwoWay(a: Stmt) {
    a.Nest? && a.tag.Branch? && a.tag.test.If? && a.rs.More? && a.rs.rest.One?
  }

  predicate LeavesBy(tag: Tag, exit: Stmt) {
    exit.Jump? && BreakLabel(tag) == Some(exit.l)
  }

  predicate SiteOk(r: Rule, a: Stmt, s: Block)
    requires Site(r, a)
  {
    match r
    case Jumps(_) => true
    case DropLabels(_) => true
    case Sink(_, i, n) =>
      i < Count(a.rs) && OthersStop(a.rs, i) && CleanIn(r, a.rs) && n <= Len(s) && Clean(r, Take(n, s))
    case Spread(_) => CleanIn(r, a.rs) && s.Cons? && s.hd.Jump?
    case Enloop(l, n, tag, leave) =>
      && n <= Len(s) && Clean(r, Take(n, s)) && tag.While? && tag.c == True
      && l !in TagLabels(tag) && (tag.brk.Some? ==> tag.brk != tag.cont)
      && (match leave case None => NoFallEnd(Take(n, s)) case Some(j) => LeavesBy(tag, j))
    case Swap(_) => TwoWay(a) && CleanIn(r, a.rs)
    case Split(_, _, innerElse, back) =>
      && TwoWay(a) && CleanIn(r, a.rs) && a.tag.test.c.And? && (innerElse ==> a.tag.test.c.r.Not?)
      && (|| (back == Nil && a.rs.rest.b == Nil)
          || (back.Cons? && back.tl.Nil? && back.hd.Jump? && a.rs.rest.b.Cons? && a.rs.rest.b.hd == Label(back.hd.l)))
    case BreakFirst(_, _, _, thenBreak, exit) =>
      a.rs.One? && CleanIn(r, a.rs) && LeavesBy(a.tag, exit) && (thenBreak ==> a.tag.c.Not?)
    case BreakLast(_, _, thenBreak, exit, unused) =>
      !a.Again? ==>
        && a.rs.One? && CleanIn(r, a.rs) && LeavesBy(a.tag, exit) && (thenBreak ==> a.tag.c.Not?)
        && OptSet(a.tag.cont) <= unused && exit.l !in unused
  }

  predicate Ok(r: Rule, b: Block) {
    match b
    case Nil => true
    case Cons(a, s) =>
      && Fresh(r, a) && !a.Again?
      && (if Site(r, a) then SiteOk(r, a, s) else a.Nest? ==> OkIn(r, a.rs))
      && Ok(r, s)
  }

  predicate OkIn(r: Rule, rs: Regions) {
    match rs
    case One(b) => Ok(r, b)
    case More(b, t) => Ok(r, b) && OkIn(r, t)
  }

  // ----- lemmas about application -----

  lemma {:induction false} ApplyClean(r: Rule, b: Block, k: Block)
    requires Clean(r, b)
    ensures Apply(r, b) == b && Apply(r, App(b, k)) == App(b, Apply(r, k))
  {
    match b
    case Nil =>
    case Cons(a, s) =>
      ApplyClean(r, s, k);
      if a.Nest? { ApplyCleanIn(r, a.rs); }
  }

  lemma {:induction false} ApplyCleanIn(r: Rule, rs: Regions)
    requires CleanIn(r, rs)
    ensures ApplyIn(r, rs) == rs
  {
    ApplyClean(r, rs.b, Nil);
    if rs.More? { ApplyCleanIn(r, rs.rest); }
  }

  lemma {:induction false} OkDrop(r: Rule, n: nat, b: Block)
    requires Ok(r, b)
    ensures Ok(r, Drop(n, b))
  {
    if n > 0 && b.Cons? { OkDrop(r, n - 1, b.tl); }
  }

  lemma SpanFits(r: Rule, a: Stmt, s: Block)
    requires Site(r, a) && SiteOk(r, a, s)
    ensures Span(r) <= Len(s)
  {}

  /** Application commutes with appending, because a site lies within its own block. */
  lemma {:induction false} ApplyApp(r: Rule, b: Block, k: Block)
    requires Ok(r, b)
    ensures Apply(r, App(b, k)) == App(Apply(r, b), Apply(r, k))
    decreases Size(b)
  {
    match b
    case Nil =>
    case Cons(a, s) =>
      if Site(r, a) {
        var n := Span(r);
        SpanFits(r, a, s);
        TakeDropApp(n, s, k);
        SizeDrop(n, s);
        OkDrop(r, n, s);
        ApplyApp(r, Drop(n, s), k);
        AppAssoc(Local(r, a, Take(n, s)), Apply(r, Drop(n, s)), Apply(r, k));
      } else {
        ApplyApp(r, s, k);
      }
  }

  // ----- normal form -----

  /** The jump that leaves the loop built by `Enloop`. */
  predicate Leaves(r: Rule, a: Stmt) {
    r.Enloop? && r.leave.Some? && r.leave.value.Jump? && a.Jump? && a.id == r.leave.value.id
  }

  /** What matters of a flat continuation: labels are dropped, and so is everything after the first
      statement that does not fall through.  The leaving jump and the loop after it are passed over. */
  function Core(r: Rule, b: Block): Block {
    match b
    case Nil => Nil
    case Cons(a, s) =>
      if a.Label? then Core(r, s)
      else if Leaves(r, a) && s.Cons? then Core(r, s.tl)
      else if NoFall(a) then Single(a)
      else Cons(a, Core(r, s))
  }

  predicate NoLeave(r: Rule, b: Block) {
    match b case Nil => true case Cons(a, s) => !Leaves(r, a) && NoLeave(r, s)
  }

  lemma {:induction false} CoreApp(r: Rule, x: Block, k: Block, k2: Block)
    requires NoLeave(r, x) && (Core(r, k) == Core(r, k2) || NoFallEnd(x))
    ensures Core(r, App(x, k)) == Core(r, App(x, k2))
  {
    match x
    case Nil =>
    case Cons(a, s) => if !(NoFall(a) && s.Nil?) { CoreApp(r, s, k, k2); }
  }

  lemma {:induction false} CleanNoLeave(r: Rule, b: Block)
    requires Clean(r, b)
    ensures NoLeave(r, b)
  {
    if b.Cons? { CleanNoLeave(r, b.tl); }
  }

  lemma {:induction false} NoLeaveApp(r: Rule, x: Block, y: Block)
    requires NoLeave(r, x) && NoLeave(r, y)
    ensures NoLeave(r, App(x, y))
  {
    if x.Cons? { NoLeaveApp(r, x.tl, y); }
  }

  lemma {:induction false} ApplyNoLeave(r: Rule, b: Block)
    requires Ok(r, b)
    ensures NoLeave(r, Apply(r, b))
    decreases Size(b)
  {
    match b
    case Nil =>
    case Cons(a, s) =>
      if Site(r, a) {
        SizeDrop(Span(r), s);
        OkDrop(r, Span(r), s);
        ApplyNoLeave(r, Drop(Span(r), s));
        NoLeaveApp(r, Local(r, a, Take(Span(r), s)), Apply(r, Drop(Span(r), s)));
      } else {
        ApplyNoLeave(r, s);
      }
  }
}
