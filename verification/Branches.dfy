/** The patterns on branches: equalization, jump duplication, the two hoisting passes, inversion and
    the merging of nested ifs. */
module Branches {
  import opened Wrappers
  import opened Clift
  import opened Behaviours
  import opened Static
  import opened Rules
  import opened Conditions
  import opened Sites
  import opened Preserve
  import opened WellFormed
  import opened InPlace
  import opened KeepForm

  // ----- which regions fall through -----

  predicate Falls(rs: Regions, i: nat) { i < Count(rs) && !NoFallEnd(Nth(rs, i)) }

  /** Region `i` falls through and no other does. */
  ghost predicate OnlyFall(rs: Regions, i: nat) {
    Falls(rs, i) && forall j: nat :: Falls(rs, j) ==> j == i
  }

  /** The search for the unique fallthrough region. */
  method FindUniqueFallthroughRegion(rs: Regions) returns (found: Option<nat>)
    ensures found.Some? ==> OnlyFall(rs, found.value)
    ensures found.None? ==> forall i: nat :: !OnlyFall(rs, i)
  {
    found := None;
    var i := 0;
    while i < Count(rs)
      invariant 0 <= i <= Count(rs)
      invariant found.Some? ==> found.value < i && Falls(rs, found.value)
      invariant forall j: nat :: j < i && Falls(rs, j) ==> found == Some(j)
    {
      if !NoFallEnd(Nth(rs, i)) {
        if found.Some? {
          assert Falls(rs, i) && Falls(rs, found.value);
          return None;
        }
        found := Some(i);
      }
      i := i + 1;
    }
  }

  lemma {:induction false} OthersFromNone(rs: Regions, i: nat)
    requires forall j: nat :: Falls(rs, j) ==> j == i
    ensures OthersStop(rs, i)
    ensures (forall j: nat :: !Falls(rs, j)) ==> NoFallAll(rs)
  {
    assert Falls(rs, 0) <==> !NoFallEnd(rs.b);
    if rs.More? {
      forall j: nat
        ensures Falls(rs.rest, j) <==> Falls(rs, j + 1)
      {}
      if i > 0 {
        OthersFromNone(rs.rest, i - 1);
      } else {
        assert forall j: nat :: !Falls(rs.rest, j);
        OthersFromNone(rs.rest, 0);
      }
    }
  }

  /** How many statements precede the trailing labels. */
  function Hoistable(s: Block): (n: nat)
    ensures n <= Len(s)
    ensures n > 0 ==> !NthStmt(s, n - 1).Label?
    ensures forall j: nat :: n <= j < Len(s) ==> NthStmt(s, j).Label?
  {
    match s
    case Nil => 0
    case Cons(a, t) =>
      var m := Hoistable(t);
      assert forall j: nat :: 0 < j < Len(s) ==> NthStmt(s, j) == NthStmt(t, j - 1);
      if m > 0 then m + 1 else if a.Label? then 0 else 1
  }

  function NthStmt(s: Block, j: nat): Stmt
    requires j < Len(s)
  {
    if j == 0 then s.hd else NthStmt(s.tl, j - 1)
  }

  // ----- branch equalization and jump duplication -----

  /** Operation `id` of `p` is a branch. */
  predicate HasBranch(p: Block, id: nat) {
    Seek(id, p).Some? && Seek(id, p).value.Cons? && IsBranch(Seek(id, p).value.hd, id)
  }

  function Op(p: Block, id: nat): Stmt
    requires Seek(id, p).Some? && Seek(id, p).value.Cons?
  {
    Seek(id, p).value.hd
  }

  function Behind(p: Block, id: nat): Block
    requires Seek(id, p).Some? && Seek(id, p).value.Cons?
  {
    Seek(id, p).value.tl
  }

  lemma SeekClean(r: Rule, p: Block)
    requires WF(p) && Single?(r) && HasBranch(p, r.id)
    ensures CleanIn(r, Op(p, r.id).rs) && Clean(r, Behind(p, r.id))
    ensures forall n: nat :: Clean(r, Take(n, Behind(p, r.id)))
  {
    SeekFacts(r.id, p);
    CleanAbsentIn(r, Op(p, r.id).rs);
    CleanAbsent(r, Behind(p, r.id));
    forall n: nat ensures Clean(r, Take(n, Behind(p, r.id))) { CleanPart(r, n, Behind(p, r.id)); }
  }

  lemma {:induction false} CleanPart(r: Rule, n: nat, b: Block)
    requires Clean(r, b)
    ensures Clean(r, Take(n, b))
  {
    if n > 0 && b.Cons? { CleanPart(r, n - 1, b.tl); }
  }

  /** The code after a branch moves into its only fallthrough region. */
  lemma BranchEqualization(p: Block, id: nat, i: nat)
    requires WF(p) && HasBranch(p, id) && OnlyFall(Op(p, id).rs, i)
    ensures var q := Apply(Sink(id, i, Hoistable(Behind(p, id))), p);
            WF(q) && Equivalent(p, q)
  {
    var r := Sink(id, i, Hoistable(Behind(p, id)));
    OthersFromNone(Op(p, id).rs, i);
    SeekClean(r, p);
    OnePreserves(r, p);
    ForwardKeeps(r, p);
  }

  /** A jump after a branch moves into every region that falls through. */
  lemma JumpDuplication(p: Block, id: nat)
    requires WF(p) && HasBranch(p, id) && Behind(p, id).Cons? && Behind(p, id).hd.Jump? && Behind(p, id).tl == Nil
    ensures var q := Apply(Spread(id), p); WF(q) && Equivalent(p, q)
  {
    var r := Spread(id);
    SeekClean(r, p);
    OnePreserves(r, p);
    ForwardKeeps(r, p);
  }

  /** An if with negated condition and swapped regions. */
  lemma IfInversion(p: Block, id: nat)
    requires WF(p) && HasBranch(p, id) && TwoWay(Op(p, id))
    ensures var q := Apply(Swap(id), p); WF(q) && Equivalent(p, q)
  {
    var r := Swap(id);
    SeekClean(r, p);
    OnePreserves(r, p);
    ForwardKeeps(r, p);
  }

  // ----- hoisting -----

  function SetRegion(rs: Regions, i: nat, b: Block): Regions {
    match rs
    case One(c) => if i == 0 then One(b) else rs
    case More(c, r) => if i == 0 then More(b, r) else More(c, SetRegion(r, i - 1, b))
  }

  /** `hoistBranchRegion`: region `i` moves behind its branch; the then-region of an if inverts it. */
  function Hoist(p: Block, id: nat, i: nat): Block
    requires HasBranch(p, id) && i < Count(Op(p, id).rs)
  {
    var a := Op(p, id);
    var q := Put(id, Cons(Nest(a.tag, SetRegion(a.rs, i, Nil)), Nth(a.rs, i)), p);
    if a.tag.test.If? && i == 0 then Apply(Swap(id), q) else q
  }

  lemma {:induction false} SetRegionFacts(rs: Regions, i: nat)
    requires i < Count(rs)
    ensures var ts := SetRegion(rs, i, Nil);
            && AppendAt(ts, i, Nth(rs, i)) == rs && Count(ts) == Count(rs)
            && (forall j: nat :: j < Count(rs) && j != i ==> Nth(ts, j) == Nth(rs, j))
            && (PlainIn(rs) ==> PlainIn(ts) && Plain(Nth(rs, i)))
            && LabelsIn(rs) == LabelsIn(ts) + Labels(Nth(rs, i))
            && OpsIn(rs) == OpsIn(ts) + Ops(Nth(rs, i))
            && TargetsIn(rs) == TargetsIn(ts) + Targets(Nth(rs, i))
            && (DistinctIn(rs) ==> DistinctIn(ts) && Distinct(Nth(rs, i)) && LabelsIn(ts) !! Labels(Nth(rs, i)))
            && (DistinctOpsIn(rs) ==> DistinctOpsIn(ts) && DistinctOps(Nth(rs, i)) && OpsIn(ts) !! Ops(Nth(rs, i)))
  {
    if i > 0 { SetRegionFacts(rs.rest, i - 1); }
  }

  lemma {:induction false} SetRegionStops(rs: Regions, i: nat)
    requires i < Count(rs) && OthersStop(rs, i)
    ensures OthersStop(SetRegion(rs, i, Nil), i)
  {
    if i > 0 { SetRegionStops(rs.rest, i - 1); }
  }

  /** The sets of a statement with regions, unfolded. */
  lemma NestSets(tag: Tag, rs: Regions, s: Block)
    ensures var b := Cons(Nest(tag, rs), s);
            && Labels(b) == TagLabels(tag) + LabelsIn(rs) + Labels(s)
            && Ops(b) == TagId(tag) + OpsIn(rs) + Ops(s)
            && Targets(b) == TargetsIn(rs) + Targets(s)
            && (DistinctOps(b) <==>
                TagId(tag) !! OpsIn(rs) && DistinctOpsIn(rs) && DistinctOps(s) && TagId(tag) + OpsIn(rs) !! Ops(s))
            && (Plain(b) <==> PlainIn(rs) && Plain(s))
  {
    var a := Nest(tag, rs);
    assert OpsOf(a) == TagId(tag) + OpsIn(rs) && LabelsOf(a) == TagLabels(tag) + LabelsIn(rs)
        && TargetsOf(a) == TargetsIn(rs);
  }

  /** Hoisting any region is sound as soon as every other region stops. */
  lemma HoistPreserves(p: Block, id: nat, i: nat)
    requires WF(p) && HasBranch(p, id) && i < Count(Op(p, id).rs) && OthersStop(Op(p, id).rs, i)
    requires Op(p, id).tag.test.If? ==> TwoWay(Op(p, id))
    ensures WF(Hoist(p, id, i)) && Equivalent(p, Hoist(p, id, i))
  {
    var a := Op(p, id);
    var m := Nth(a.rs, i);
    var ts := SetRegion(a.rs, i, Nil);
    var y := Cons(Nest(a.tag, ts), m);
    var r := Sink(id, i, Len(m));
    SeekFacts(id, p);
    SetRegionFacts(a.rs, i);
    SetRegionStops(a.rs, i);
    TakeLen(m);
    CleanAbsent(r, m);
    CleanAbsentIn(r, ts);
    assert Undoes(r, y, a);
    NestSets(a.tag, a.rs, Nil);
    NestSets(a.tag, ts, m);
    assert Fits(id, a, y);
    PutPreserves(r, y, p);
    var q := Put(id, y, p);
    if a.tag.test.If? && i == 0 {
      PutShape(id, y, p);
      assert Seek(id, q).value.hd == Nest(a.tag, ts);
      IfInversion(q, id);
      Transitive(p, q, Apply(Swap(id), q));
    }
  }

  /** The pass that hoists the only fallthrough region. */
  lemma UniqueFallthroughHoisting(p: Block, id: nat, i: nat)
    requires WF(p) && HasBranch(p, id) && OnlyFall(Op(p, id).rs, i) && Nth(Op(p, id).rs, i) != Nil
    requires Op(p, id).tag.test.If? ==> TwoWay(Op(p, id))
    ensures WF(Hoist(p, id, i)) && Equivalent(p, Hoist(p, id, i))
  {
    OthersFromNone(Op(p, id).rs, i);
    HoistPreserves(p, id, i);
  }

  /** The pass that hoists some region of a branch none of whose regions falls through; the weights
      only choose which. */
  lemma TerminalHoisting(p: Block, id: nat, i: nat)
    requires WF(p) && HasBranch(p, id) && i < Count(Op(p, id).rs) && (forall j: nat :: !Falls(Op(p, id).rs, j))
    requires Op(p, id).tag.test.If? ==> TwoWay(Op(p, id))
    ensures WF(Hoist(p, id, i)) && Equivalent(p, Hoist(p, id, i))
  {
    OthersFromNone(Op(p, id).rs, i);
    HoistPreserves(p, id, i);
  }

  // ----- nested ifs -----

  /** The two regions of an if, the else-region first if `swapped`. */
  function Regions2(a: Stmt, swapped: bool): (Block, Block)
    requires TwoWay(a)
  {
    if swapped then (a.rs.rest.b, a.rs.b) else (a.rs.b, a.rs.rest.b)
  }

  /** The outer if holds nothing but the inner one in the region that `outerElse` names; the and-then region of
      the inner one is the one that `innerElse` names.  The opposite regions are both empty, or the inner one
      is a goto to the beginning of the outer one. */
  predicate Nests(a: Stmt, inner: Stmt, outerElse: bool, innerElse: bool) {
    && TwoWay(a) && TwoWay(inner) && Regions2(a, outerElse).0 == Single(inner)
    && var opposite, other := Regions2(inner, innerElse).1, Regions2(a, outerElse).1;
       || (opposite == Nil && other == Nil)
       || (opposite.Cons? && opposite.tl == Nil && opposite.hd.Jump? && opposite.hd.kind == Goto
           && other.Cons? && other.hd == Label(opposite.hd.l))
  }

  /** The inner condition is inverted if the two sides differ, and always joined by a conjunction. */
  function Merged(a: Stmt, inner: Stmt, outerElse: bool, innerElse: bool): Stmt
    requires Nests(a, inner, outerElse, innerElse)
  {
    var c := if outerElse != innerElse then Not(inner.tag.test.c) else inner.tag.test.c;
    var andThen, other := Regions2(inner, innerElse).0, Regions2(a, outerElse).1;
    Nest(Branch(a.tag.id, If(And(a.tag.test.c, c))),
         if outerElse then More(other, One(andThen)) else More(andThen, One(other)))
  }

  lemma MergedFits(p: Block, id: nat, inner: Stmt, innerElse: bool)
    requires WF(p) && HasBranch(p, id) && Nests(Op(p, id), inner, false, innerElse)
    ensures Fits(id, Op(p, id), Single(Merged(Op(p, id), inner, false, innerElse)))
  {
    var a := Op(p, id);
    var x, y := inner.rs.b, inner.rs.rest.b;
    var b, o := (if innerElse then y else x), (if innerElse then x else y);
    var z := a.rs.rest.b;
    SeekFacts(id, p);
    assert inner.rs == More(x, One(y)) && a.rs == More(Single(inner), One(z));
    assert Labels(o) == {} by { if o.Cons? { JumpAlone(o.hd); } }
    MergedSets(a, inner, b, o, z);
  }

  /** Taking region `b` out of the inner if. */
  lemma MergedSets(a: Stmt, inner: Stmt, b: Block, o: Block, z: Block)
    requires a.Nest? && a.tag.Branch? && inner.Nest? && inner.tag.Branch? && a.rs == More(Single(inner), One(z))
    requires inner.rs == More(b, One(o)) || inner.rs == More(o, One(b))
    requires Labels(o) == {} && PlainIn(a.rs) && DistinctOf(a) && DistinctOpsOf(a)
    ensures forall test :: Fits(a.tag.id, a, Single(Nest(Branch(a.tag.id, test), More(b, One(z)))))
  {
    var x, y := inner.rs.b, inner.rs.rest.b;
    PlainTwo(x, y); PlainTwo(Single(inner), z); PlainTwo(b, z);
    MergedOps(a.tag.id, inner, b, o, z);
    DistinctTwo(x, y); DistinctTwo(Single(inner), z); DistinctTwo(b, z);
    FindTwo(0, x, y, Nil); FindTwo(0, Single(inner), z, Nil); FindTwo(0, b, z, Nil);
    assert Labels(Single(inner)) == LabelsOf(inner) + Labels(Nil);
    forall test
      ensures Fits(a.tag.id, a, Single(Nest(Branch(a.tag.id, test), More(b, One(z)))))
    {
      NestSets(Branch(a.tag.id, test), More(b, One(z)), Nil);
      NestSets(a.tag, a.rs, Nil);
    }
  }

  lemma MergedOps(id: nat, inner: Stmt, b: Block, o: Block, z: Block)
    requires inner.Nest? && inner.tag.Branch? && DistinctOpsIn(More(Single(inner), One(z)))
    requires id !in OpsIn(More(Single(inner), One(z)))
    requires inner.rs == More(b, One(o)) || inner.rs == More(o, One(b))
    ensures var rs, was := More(b, One(z)), More(Single(inner), One(z));
            DistinctOpsIn(rs) && OpsIn(rs) <= OpsIn(was) && TargetsIn(rs) <= TargetsIn(was) && id !in OpsIn(rs)
  {
    OpsTwo(inner.rs.b, inner.rs.rest.b); OpsTwo(Single(inner), z); OpsTwo(b, z);
    assert Ops(Single(inner)) == OpsOf(inner) + Ops(Nil) && Targets(Single(inner)) == TargetsOf(inner) + Targets(Nil);
    assert OpsOf(inner) == {inner.tag.id} + OpsIn(inner.rs);
  }

  /** Merging an if nested in the then-region of another, by a conjunction. */
  lemma IfAndCombining(p: Block, id: nat, inner: Stmt, innerElse: bool)
    requires WF(p) && HasBranch(p, id) && Nests(Op(p, id), inner, false, innerElse)
    ensures var q := Put(id, Single(Merged(Op(p, id), inner, false, innerElse)), p);
            WF(q) && Equivalent(p, q)
  {
    var a := Op(p, id);
    var x, y := inner.rs.b, inner.rs.rest.b;
    var back := if innerElse then x else y;
    var m := Merged(a, inner, false, innerElse);
    var r := Split(id, inner.tag.id, innerElse, back);
    MergedFits(p, id, inner, innerElse);
    SeekFacts(id, p);
    NestSets(m.tag, m.rs, Nil);
    CleanAbsentIn(r, m.rs);
    assert inner == Nest(Branch(inner.tag.id, If(inner.tag.test.c)), More(x, One(y)));
    assert a == Nest(Branch(id, If(a.tag.test.c)), More(Single(inner), One(a.rs.rest.b)));
    assert Undoes(r, Single(m), a);
    PutPreserves(r, Single(m), p);
  }
}
