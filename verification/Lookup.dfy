/** A rewrite keeps the meaning of labels: the continuation found at a label of the rewritten program
    is the rewritten continuation, up to the normal form. */
module Lookup {
  import opened Wrappers
  import opened Clift
  import opened Rules
  import opened Conditions

  /** Labels whose place is given up. */
  function Lost(r: Rule): set<nat> {
    match r
    case DropLabels(dead) => dead
    case BreakLast(_, _, _, _, unused) => unused
    case _ => {}
  }

  // ----- blocks without sites -----

  /** What follows a region of `a`, when `s` and then `k` or `k2` follow `a`. */
  lemma CoreAfter(r: Rule, a: Stmt, s: Block, k: Block, k2: Block)
    requires a.Nest? && NoLeave(r, s) && (Core(r, k) == Core(r, k2) || NoFallEnd(Cons(a, s)))
    ensures Core(r, App(s, k)) == Core(r, App(s, k2)) || (NoFallAll(a.rs) && TagLabels(a.tag) == {})
    ensures Core(r, Inner(a, App(s, k))) == Core(r, Inner(a, App(s, k2))) || NoFallAll(a.rs)
  {
    if !(s.Nil? && NoFallEnd(Cons(a, s))) { CoreApp(r, s, k, k2); }
  }

  lemma {:induction false} FindSame(r: Rule, l: nat, b: Block, k: Block, k2: Block)
    requires Clean(r, b) && l in Labels(b) && (Core(r, k) == Core(r, k2) || NoFallEnd(b))
    ensures Find(l, b, k).Some? && Find(l, b, k2).Some?
    ensures Core(r, Find(l, b, k).value) == Core(r, Find(l, b, k2).value)
  {
    FindLabel(l, b, k);
    FindLabel(l, b, k2);
    CleanNoLeave(r, b);
    var Cons(a, s) := b;
    FindLabel(l, s, k);
    FindLabel(l, s, k2);
    if a == Label(l) {
      CoreApp(r, b, k, k2);
    } else if a.Nest? && l in LabelsOf(a) {
      CoreAfter(r, a, s, k, k2);
      FindSameOf(r, l, a, App(s, k), App(s, k2));
      FindNest(l, a, s, k);
      FindNest(l, a, s, k2);
    } else {
      if a.Nest? {
        FindLabelIn(l, a.rs, Inner(a, App(s, k)));
        FindLabelIn(l, a.rs, Inner(a, App(s, k2)));
      }
      FindSame(r, l, s, k, k2);
    }
  }

  /** Lookup of a label of the statement `a`, followed by `k`. */
  function FindOf(l: nat, a: Stmt, k: Block): Option<Block>
    requires a.Nest?
  {
    if BreakLabel(a.tag) == Some(l) then Some(k)
    else if ContinueLabel(a.tag) == Some(l) then Some(Inner(a, k))
    else FindIn(l, a.rs, Inner(a, k))
  }

  lemma FindNest(l: nat, a: Stmt, s: Block, k: Block)
    requires a.Nest? && FindOf(l, a, App(s, k)).Some?
    ensures Find(l, Cons(a, s), k) == FindOf(l, a, App(s, k))
  {}

  lemma {:induction false} FindSameOf(r: Rule, l: nat, a: Stmt, k: Block, k2: Block)
    requires a.Nest? && CleanStmt(r, a) && l in LabelsOf(a)
    requires Core(r, k) == Core(r, k2) || TagLabels(a.tag) == {}
    requires Core(r, Inner(a, k)) == Core(r, Inner(a, k2)) || NoFallAll(a.rs)
    ensures FindOf(l, a, k).Some? && FindOf(l, a, k2).Some?
    ensures Core(r, FindOf(l, a, k).value) == Core(r, FindOf(l, a, k2).value)
  {
    if l !in TagLabels(a.tag) { FindSameIn(r, l, a.rs, Inner(a, k), Inner(a, k2)); }
  }

  lemma {:induction false} FindSameIn(r: Rule, l: nat, rs: Regions, k: Block, k2: Block)
    requires CleanIn(r, rs) && l in LabelsIn(rs) && (Core(r, k) == Core(r, k2) || NoFallAll(rs))
    ensures FindIn(l, rs, k).Some? && FindIn(l, rs, k2).Some?
    ensures Core(r, FindIn(l, rs, k).value) == Core(r, FindIn(l, rs, k2).value)
  {
    FindLabel(l, rs.b, k);
    FindLabel(l, rs.b, k2);
    if l in Labels(rs.b) { FindSame(r, l, rs.b, k, k2); } else { FindSameIn(r, l, rs.rest, k, k2); }
  }

  lemma ApplyInner(r: Rule, a: Stmt, k: Block)
    requires a.Nest? && CleanStmt(r, a)
    ensures Apply(r, Inner(a, k)) == Inner(a, Apply(r, k))
  {
    ApplyCleanIn(r, a.rs);
    assert ApplyStmt(r, a) == a;
    assert a.tag.DoWhile? ==> !Site(r, Again(a)) && ApplyStmt(r, Again(a)) == Again(a);
  }

  lemma {:induction false} FindClean(r: Rule, l: nat, b: Block, k: Block)
    requires Clean(r, b) && l in Labels(b)
    ensures Find(l, b, k).Some? && Find(l, b, Apply(r, k)) == Some(Apply(r, Find(l, b, k).value))
  {
    FindLabel(l, b, k);
    var Cons(a, s) := b;
    FindLabel(l, s, k);
    FindLabel(l, s, Apply(r, k));
    ApplyClean(r, b, k);
    ApplyClean(r, s, k);
    if a.Nest? {
      ApplyInner(r, a, App(s, k));
      FindLabelIn(l, a.rs, Inner(a, App(s, k)));
      FindLabelIn(l, a.rs, Inner(a, App(s, Apply(r, k))));
      if l in LabelsIn(a.rs) && l !in TagLabels(a.tag) { FindCleanIn(r, l, a.rs, Inner(a, App(s, k))); }
    }
    if l !in LabelsOf(a) { FindClean(r, l, s, k); }
  }

  lemma {:induction false} FindCleanIn(r: Rule, l: nat, rs: Regions, k: Block)
    requires CleanIn(r, rs) && l in LabelsIn(rs)
    ensures FindIn(l, rs, k).Some? && FindIn(l, rs, Apply(r, k)) == Some(Apply(r, FindIn(l, rs, k).value))
  {
    FindLabel(l, rs.b, k);
    FindLabel(l, rs.b, Apply(r, k));
    if l in Labels(rs.b) { FindClean(r, l, rs.b, k); } else { FindCleanIn(r, l, rs.rest, k); }
  }

  /** Both facts together: the same block, rewritten continuation against any matching one. */
  lemma FindMoved(r: Rule, l: nat, b: Block, k: Block, k2: Block)
    requires Clean(r, b) && l in Labels(b) && (Core(r, Apply(r, k)) == Core(r, k2) || NoFallEnd(b))
    ensures Find(l, b, k).Some? && Find(l, b, k2).Some?
    ensures Core(r, Apply(r, Find(l, b, k).value)) == Core(r, Find(l, b, k2).value)
  {
    FindClean(r, l, b, k);
    FindSame(r, l, b, Apply(r, k), k2);
  }
}
