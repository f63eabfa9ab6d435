/** Well-formed programs, and rewriting one operation in place. */
module WellFormed {
  import opened Wrappers
  import opened Clift
  import opened Static
  import opened Rules
  import opened Conditions
  import opened Lookup
  import opened Places
  import opened Steps
  import opened Preservation

  // ----- identities and jump targets -----

  function TagId(tag: Tag): set<nat> {
    if tag.Scope? then {} else {tag.id}
  }

  /** The identities of the branches and loops of a block. */
  function Ops(b: Block): set<nat> {
    match b case Nil => {} case Cons(a, s) => OpsOf(a) + Ops(s)
  }

  function OpsOf(a: Stmt): set<nat> {
    match a case Nest(tag, rs) => TagId(tag) + OpsIn(rs) case _ => {}
  }

  function OpsIn(rs: Regions): set<nat> {
    match rs case One(b) => Ops(b) case More(b, r) => Ops(b) + OpsIn(r)
  }

  predicate DistinctOps(b: Block) {
    match b
    case Nil => true
    case Cons(a, s) => OpsOf(a) !! Ops(s) && DistinctOpsOf(a) && DistinctOps(s)
  }

  predicate DistinctOpsOf(a: Stmt) {
    match a case Nest(tag, rs) => TagId(tag) !! OpsIn(rs) && DistinctOpsIn(rs) case _ => true
  }

  predicate DistinctOpsIn(rs: Regions) {
    match rs
    case One(b) => DistinctOps(b)
    case More(b, r) => Ops(b) !! OpsIn(r) && DistinctOps(b) && DistinctOpsIn(r)
  }

  /** The labels targeted by the jumps of a block. */
  function Targets(b: Block): set<nat> {
    match b case Nil => {} case Cons(a, s) => TargetsOf(a) + Targets(s)
  }

  function TargetsOf(a: Stmt): set<nat> {
    match a
    case Jump(_, _, l) => {l}
    case Nest(_, rs) => TargetsIn(rs)
    case _ => {}
  }

  function TargetsIn(rs: Regions): set<nat> {
    match rs case One(b) => Targets(b) case More(b, r) => Targets(b) + TargetsIn(r)
  }

  /** Labels are assigned once, jumps have targets, operations are told apart. */
  predicate WF(p: Block) {
    Plain(p) && Distinct(p) && Targets(p) <= Labels(p) && DistinctOps(p)
  }

  // ----- conditions of a rule, from sets -----

  lemma {:induction false} SaneSets(r: Rule, p: Block, b: Block, k: Block)
    requires !r.Jumps? && Targets(b) <= Labels(p) && Targets(b) !! Lost(r)
    ensures Sane(r, p, b, k)
  {
    if b.Cons? {
      SaneSets(r, p, b.tl, k);
      if b.hd.Nest? { SaneSetsIn(r, p, b.hd.rs, Inner(b.hd, App(b.tl, k))); }
    }
  }

  lemma {:induction false} SaneSetsIn(r: Rule, p: Block, rs: Regions, k: Block)
    requires !r.Jumps? && TargetsIn(rs) <= Labels(p) && TargetsIn(rs) !! Lost(r)
    ensures SaneIn(r, p, rs, k)
  {
    SaneSets(r, p, rs.b, k);
    if rs.More? { SaneSetsIn(r, p, rs.rest, k); }
  }

  /** The rules that look for one operation. */
  predicate Single?(r: Rule) {
    r.Sink? || r.Spread? || r.Swap? || r.Split? || r.BreakFirst? || r.BreakLast?
  }

  lemma {:induction false} CleanAbsent(r: Rule, b: Block)
    requires Single?(r) && r.id !in Ops(b) && Plain(b)
    ensures Clean(r, b)
  {
    if b.Cons? {
      CleanAbsent(r, b.tl);
      if b.hd.Nest? { CleanAbsentIn(r, b.hd.rs); }
    }
  }

  lemma {:induction false} CleanAbsentIn(r: Rule, rs: Regions)
    requires Single?(r) && r.id !in OpsIn(rs) && PlainIn(rs)
    ensures CleanIn(r, rs)
  {
    CleanAbsent(r, rs.b);
    if rs.More? { CleanAbsentIn(r, rs.rest); }
  }

  predicate Named(a: Stmt, id: nat) { a.Nest? && !a.tag.Scope? && a.tag.id == id }

  /** The operation `id` and the rest of its block. */
  function Seek(id: nat, b: Block): Option<Block> {
    match b
    case Nil => None
    case Cons(a, s) =>
      if Named(a, id) then Some(b)
      else
        var f := if a.Nest? then SeekIn(id, a.rs) else None;
        if f.Some? then f else Seek(id, s)
  }

  function SeekIn(id: nat, rs: Regions): Option<Block> {
    match rs
    case One(b) => Seek(id, b)
    case More(b, r) => var f := Seek(id, b); if f.Some? then f else SeekIn(id, r)
  }

  lemma {:induction false} SeekOps(id: nat, b: Block)
    ensures Seek(id, b).Some? <==> id in Ops(b)
    ensures Seek(id, b).Some? ==> Seek(id, b).value.Cons? && Named(Seek(id, b).value.hd, id)
  {
    if b.Cons? {
      SeekOps(id, b.tl);
      if b.hd.Nest? { SeekOpsIn(id, b.hd.rs); }
    }
  }

  lemma {:induction false} SeekOpsIn(id: nat, rs: Regions)
    ensures SeekIn(id, rs).Some? <==> id in OpsIn(rs)
    ensures SeekIn(id, rs).Some? ==> SeekIn(id, rs).value.Cons? && Named(SeekIn(id, rs).value.hd, id)
  {
    SeekOps(id, rs.b);
    if rs.More? { SeekOpsIn(id, rs.rest); }
  }

  /** What the block around the operation says of it. */
  lemma {:induction false} SeekFacts(id: nat, b: Block)
    requires Seek(id, b).Some? && Plain(b) && DistinctOps(b) && Distinct(b)
    ensures var f := Seek(id, b).value;
            f.Cons? && Named(f.hd, id) && Plain(f) && DistinctOps(f) && Distinct(f)
            && Targets(f) <= Targets(b) && Labels(f) <= Labels(b) && Ops(f) <= Ops(b)
  {
    SeekOps(id, b);
    if b.hd.Nest? { SeekOpsIn(id, b.hd.rs); }
    if Named(b.hd, id) {
    } else if b.hd.Nest? && SeekIn(id, b.hd.rs).Some? {
      SeekFactsIn(id, b.hd.rs);
    } else {
      SeekFacts(id, b.tl);
    }
  }

  lemma {:induction false} SeekFactsIn(id: nat, rs: Regions)
    requires SeekIn(id, rs).Some? && PlainIn(rs) && DistinctOpsIn(rs) && DistinctIn(rs)
    ensures var f := SeekIn(id, rs).value;
            f.Cons? && Named(f.hd, id) && Plain(f) && DistinctOps(f) && Distinct(f)
            && Targets(f) <= TargetsIn(rs) && Labels(f) <= LabelsIn(rs) && Ops(f) <= OpsIn(rs)
  {
    if Seek(id, rs.b).Some? { SeekFacts(id, rs.b); } else { SeekFactsIn(id, rs.rest); }
  }

  /** One matching operation is enough: the rest of the program has no site. */
  lemma {:induction false} OkOnly(r: Rule, b: Block)
    requires Single?(r) && Plain(b) && DistinctOps(b)
    requires Seek(r.id, b).Some?
    requires Seek(r.id, b).value.Cons? && Site(r, Seek(r.id, b).value.hd)
    requires SiteOk(r, Seek(r.id, b).value.hd, Seek(r.id, b).value.tl)
    ensures Ok(r, b)
  {
    SeekOps(r.id, b);
    var Cons(a, s) := b;
    if a.Nest? { SeekOpsIn(r.id, a.rs); }
    if Named(a, r.id) {
      CleanAbsent(r, s);
      CleanOk(r, s);
    } else if a.Nest? && SeekIn(r.id, a.rs).Some? {
      OkOnlyIn(r, a.rs);
      CleanAbsent(r, s);
      CleanOk(r, s);
    } else {
      SeekOps(r.id, s);
      if a.Nest? {
        CleanAbsentIn(r, a.rs);
        CleanOkIn(r, a.rs);
      }
      OkOnly(r, s);
    }
  }

  lemma {:induction false} OkOnlyIn(r: Rule, rs: Regions)
    requires Single?(r) && PlainIn(rs) && DistinctOpsIn(rs)
    requires SeekIn(r.id, rs).Some?
    requires SeekIn(r.id, rs).value.Cons? && Site(r, SeekIn(r.id, rs).value.hd)
    requires SiteOk(r, SeekIn(r.id, rs).value.hd, SeekIn(r.id, rs).value.tl)
    ensures OkIn(r, rs)
  {
    SeekOps(r.id, rs.b);
    if Seek(r.id, rs.b).Some? {
      OkOnly(r, rs.b);
      if rs.More? {
        CleanAbsentIn(r, rs.rest);
        CleanOkIn(r, rs.rest);
      }
    } else {
      CleanAbsent(r, rs.b);
      CleanOk(r, rs.b);
      OkOnlyIn(r, rs.rest);
    }
  }

  /** A rule that looks for one operation, applied to a well-formed program that has it. */
  lemma OnePreserves(r: Rule, p: Block)
    requires WF(p) && Single?(r) && Targets(p) !! Lost(r)
    requires Seek(r.id, p).Some?
    requires Seek(r.id, p).value.Cons? && Site(r, Seek(r.id, p).value.hd)
    requires SiteOk(r, Seek(r.id, p).value.hd, Seek(r.id, p).value.tl)
    ensures Good(r, p) && Equivalent(p, Apply(r, p))
  {
    OkOnly(r, p);
    SaneSets(r, p, p, Nil);
    RulePreserves(r, p);
  }
}
