/** Loop detection: gotos that jump backwards become loops. */
module LoopDetection {
  import opened Wrappers
  import opened Clift
  import opened Behaviours
  import opened Rules
  import opened Conditions
  import opened Preservation
  import opened WellFormed
  import opened KeepForm
  import opened Positions
  import opened JumpLaws
  import opened NewLoop
  import opened OpenGotos
  import opened NamedJumps
  import opened LoopCreation
  import opened LoopJumps
  import opened LoopNesting
  import opened GotoCollection

  // ----- syntactic order -----

  predicate NoDup(s: seq<nat>) { forall i, j :: 0 <= i < j < |s| ==> s[i] != s[j] }

  lemma {:induction false} NoDupApp(x: seq<nat>, y: seq<nat>)
    requires NoDup(x) && NoDup(y) && forall l :: l in x ==> l !in y
    ensures NoDup(x + y)
  {
    forall i, j | 0 <= i < j < |x + y|
      ensures (x + y)[i] != (x + y)[j]
    {
      if i < |x| <= j { assert x[i] in x && y[j - |x|] in y; }
    }
  }

  lemma {:induction false} OrderNoDup(b: Block)
    requires Distinct(b)
    ensures NoDup(Order(b))
  {
    if b.Cons? {
      Unfold(b.hd, b.tl);
      OrderNoDup(b.tl);
      OrderLabels(b.tl);
      if b.hd.Nest? {
        OrderNoDupIn(b.hd.rs);
        OrderLabelsIn(b.hd.rs);
      }
      NoDupApp(OrderOf(b.hd), Order(b.tl));
    }
  }

  lemma {:induction false} OrderNoDupIn(rs: Regions)
    requires DistinctIn(rs)
    ensures NoDup(OrderIn(rs))
  {
    OrderNoDup(rs.b);
    if rs.More? {
      OrderNoDupIn(rs.rest);
      OrderLabels(rs.b);
      OrderLabelsIn(rs.rest);
      NoDupApp(Order(rs.b), OrderIn(rs.rest));
    }
  }

  /** A label assigned by a statement is not also the label of a loop. */
  lemma {:induction false} TailLabels(l: nat, m: nat, b: Block)
    requires Distinct(b) && Tail(l, b).Some? && m in Order(b) && m in Labels(Tail(l, b).value)
    ensures m in Order(Tail(l, b).value)
  {
    var Cons(a, s) := b;
    Unfold(a, s);
    OrderLabels(s);
    if a.Nest? { OrderLabelsIn(a.rs); }
    if a == Label(l) {
    } else if a.Nest? && TailIn(l, a.rs).Some? {
      TailFactsIn(l, a.rs);
      TailLabelsIn(l, m, a.rs);
    } else {
      TailFacts(l, s);
      TailLabels(l, m, s);
    }
  }

  lemma {:induction false} TailLabelsIn(l: nat, m: nat, rs: Regions)
    requires DistinctIn(rs) && TailIn(l, rs).Some? && m in OrderIn(rs) && m in Labels(TailIn(l, rs).value)
    ensures m in Order(TailIn(l, rs).value)
  {
    OrderLabels(rs.b);
    if rs.More? { OrderLabelsIn(rs.rest); }
    if Tail(l, rs.b).Some? {
      TailFacts(l, rs.b);
      TailLabels(l, m, rs.b);
    } else {
      TailFactsIn(l, rs.rest);
      TailLabelsIn(l, m, rs.rest);
    }
  }

  /** Working on label number `i` does not touch the labels before it. */
  lemma {:induction false} EarlierApart(q: Block, i: nat, j: nat)
    requires Distinct(q) && j < i < |Order(q)|
    ensures Tail(Order(q)[i], q).Some? && Order(q)[j] !in {Order(q)[i]} + Labels(Tail(Order(q)[i], q).value)
  {
    var l, m := Order(q)[i], Order(q)[j];
    OrderNoDup(q);
    TailOrder(l, q);
    var u, v := OrderTail(l, q);
    var t := Tail(l, q).value;
    assert Order(q)[|u|] == l;
    forall n | 0 <= n < |Order(t)|
      ensures Order(t)[n] != m
    {
      assert Order(q)[|u| + 1 + n] == Order(t)[n];
    }
    if m in Labels(t) { TailLabels(l, m, q); }
  }

  // ----- unused numbers -----

  function Max(x: nat, y: nat): nat { if x < y then y else x }

  function TopOf(l: Option<nat>): nat { match l case None => 0 case Some(x) => x + 1 }

  function TopTag(tag: Tag): nat {
    match tag
    case Scope => 0
    case Branch(id, _) => id + 1
    case _ => Max(tag.id + 1, Max(TopOf(tag.brk), TopOf(tag.cont)))
  }

  /** A bound on the labels and identities of a block. */
  function Top(b: Block): nat {
    match b case Nil => 0 case Cons(a, s) => Max(TopStmt(a), Top(s))
  }

  function TopStmt(a: Stmt): nat {
    match a
    case Label(l) => l + 1
    case Jump(id, _, l) => id + 1
    case Nest(tag, rs) => Max(TopTag(tag), TopIn(rs))
    case _ => 0
  }

  function TopIn(rs: Regions): nat {
    match rs case One(b) => Top(b) case More(b, r) => Max(Top(b), TopIn(r))
  }

  lemma {:induction false} TopBelow(b: Block)
    ensures Below(b, Top(b))
  {
    if b.Cons? {
      TopBelow(b.tl);
      NestSetsOf(b.hd, b.tl);
      if b.hd.Nest? { TopBelowIn(b.hd.rs); }
    }
  }

  lemma {:induction false} NestSetsOf(a: Stmt, s: Block)
    ensures var b := Cons(a, s);
            Labels(b) == LabelsOf(a) + Labels(s) && Ops(b) == OpsOf(a) + Ops(s) && Names(b) == NamesOf(a) + Names(s)
    ensures a.Nest? ==>
        LabelsOf(a) == TagLabels(a.tag) + LabelsIn(a.rs) && OpsOf(a) == TagId(a.tag) + OpsIn(a.rs)
            && NamesOf(a) == NamesIn(a.rs)
    ensures a.Jump? ==> NamesOf(a) == {a.id}
    ensures a.Label? ==> LabelsOf(a) == {a.l}
  {}

  lemma {:induction false} TopBelowIn(rs: Regions)
    ensures forall l :: l in LabelsIn(rs) ==> l < TopIn(rs)
    ensures forall l :: l in OpsIn(rs) ==> l < TopIn(rs)
    ensures forall l :: l in NamesIn(rs) ==> l < TopIn(rs)
  {
    TopBelow(rs.b);
    if rs.More? { TopBelowIn(rs.rest); }
  }

  // ----- erasing labels without jumps -----

  /** Erases the label `l` unless a jump targets it. */
  method Canonicalize(p: Block, l: nat) returns (q: Block)
    requires Proper(p)
    ensures Equivalent(p, q) && Proper(q) && Shrinks(p, q) && Gotos(q) == Gotos(p)
    ensures if l in Targets(p) then q == p else l !in Labels(q) && Labels(q) == Labels(p) - {l}
    ensures AllJumps(q) == AllJumps(p) && Targets(q) == Targets(p)
    ensures WellNested(p, {}, {}) ==> WellNested(q, {}, {})
  {
    q := p;
    if l !in Targets(p) {
      q := Apply(DropLabels({l}), p);
      DropJumps(DropLabels({l}), p);
      DropKeeps(p, l);
      if WellNested(p, {}, {}) { DropNested(l, p, {}, {}, {}, {}); }
    } else {
      forall m: nat ensures ShrinksAt(p, p, m) {}
      KeptSelf(p);
    }
  }

  lemma {:induction false} DropSets(l: nat, b: Block)
    ensures var c := Apply(DropLabels({l}), b); Labels(c) == Labels(b) - {l} && Targets(c) == Targets(b)
  {
    var r := DropLabels({l});
    match b
    case Nil =>
    case Cons(a, s) =>
      DropSets(l, s);
      Unfold(a, s);
      if Site(r, a) {
        assert App(Nil, Apply(r, s)) == Apply(r, s);
      } else {
        Unfold(ApplyStmt(r, a), Apply(r, s));
        DropSetsOf(l, a);
      }
  }

  lemma {:induction false} DropSetsOf(l: nat, a: Stmt)
    requires a != Label(l)
    ensures var c := ApplyStmt(DropLabels({l}), a); LabelsOf(c) == LabelsOf(a) - {l} && TargetsOf(c) == TargetsOf(a)
  {
    if a.Nest? {
      DropSetsIn(l, a.rs);
      assert TagLabels(Retag(DropLabels({l}), a.tag)) == TagLabels(a.tag) - {l};
    }
  }

  lemma {:induction false} DropSetsIn(l: nat, rs: Regions)
    ensures var t := ApplyIn(DropLabels({l}), rs); LabelsIn(t) == LabelsIn(rs) - {l} && TargetsIn(t) == TargetsIn(rs)
  {
    DropSets(l, rs.b);
    if rs.More? { DropSetsIn(l, rs.rest); }
  }

  lemma {:induction false} DropKeeps(p: Block, l: nat)
    requires Proper(p) && l !in Targets(p)
    ensures var q := Apply(DropLabels({l}), p);
            && Equivalent(p, q) && Proper(q) && Shrinks(p, q) && Gotos(q) == Gotos(p)
            && Labels(q) == Labels(p) - {l} && Targets(q) == Targets(p)
  {
    var r := DropLabels({l});
    JumpsOk(r, p);
    ForwardKeeps(r, p);
    RulePreserves(r, p);
    DropOpens(r, p);
    DropShrinks(r, p);
    DropSets(l, p);
  }

  // ----- the pass -----

  /** The state of the pass when the labels from number `i` on have been handled. */
  ghost predicate Progress(p: Block, q: Block, i: nat) {
    && i <= |Order(p)| && Kept(p, q, Labels(p) + Labels(q))
    && (forall j: nat :: j < i ==> Pending(p, q, Order(p)[j]))
    && (forall j: nat :: i <= j < |Order(p)| ==> Handled(p, q, Order(p)[j]))
  }

  ghost predicate Pending(p: Block, q: Block, l: nat) { forall id :: id in Backward(p, l) ==> GotoBehind(q, l, id) }

  ghost predicate Handled(p: Block, q: Block, l: nat) { forall id, m :: id in Backward(p, l) ==> (id, m) !in Gotos(q) }

  lemma {:induction false} Begin(p: Block)
    requires Proper(p)
    ensures Progress(p, p, |Order(p)|)
  {
    KeptSelf(p);
    KeptMore(p, p, {}, Labels(p) + Labels(p));
    forall j: nat | j < |Order(p)| ensures Pending(p, p, Order(p)[j]) {
      var l := Order(p)[j];
      TailOrder(l, p);
      OpensGotos(Tail(l, p).value);
    }
  }

  lemma {:induction false} KeptMore(p: Block, q: Block, hit: set<nat>, hit2: set<nat>)
    requires Kept(p, q, hit) && hit <= hit2
    ensures Kept(p, q, hit2)
  {
    forall l: nat, id: nat ensures StaysBehind(p, q, hit2, l, id) { assert StaysBehind(p, q, hit, l, id); }
  }

  lemma {:induction false} Advance(p: Block, q: Block, q2: Block, i: nat, next: nat)
    requires Progress(p, q, i + 1) && i < |Order(p)| && Tail(Order(p)[i], q).Some?
    requires LoopCreated(q, q2, Order(p)[i], Backward(p, Order(p)[i]), Tail(Order(p)[i], q).value, next)
    ensures Progress(p, q2, i)
  {
    var l := Order(p)[i];
    var hit := {l} + Labels(Tail(l, q).value);
    KeptAll(p, q, q2, hit);
    forall j: nat | j < i ensures Pending(p, q2, Order(p)[j]) { AdvancePending(p, q, q2, i, j); }
    forall j: nat | i <= j < |Order(p)| ensures Handled(p, q2, Order(p)[j]) {
      if j > i {
        assert Handled(p, q, Order(p)[j]);
        StillHandled(p, q, q2, Order(p)[j]);
      }
    }
  }

  lemma {:induction false} AdvancePending(p: Block, q: Block, q2: Block, i: nat, j: nat)
    requires Progress(p, q, i + 1) && j < i < |Order(p)| && Tail(Order(p)[i], q).Some?
    requires Kept(q, q2, {Order(p)[i]} + Labels(Tail(Order(p)[i], q).value))
    ensures Pending(p, q2, Order(p)[j])
  {
    assert Pending(p, q, Order(p)[j]);
    EarlierApart(q, i, j);
    StillPending(p, q, q2, Order(p)[j], {Order(p)[i]} + Labels(Tail(Order(p)[i], q).value));
  }

  lemma {:induction false} StillPending(p: Block, q: Block, q2: Block, m: nat, hit: set<nat>)
    requires Pending(p, q, m) && m !in hit && forall l: nat, id: nat :: StaysBehind(q, q2, hit, l, id)
    ensures Pending(p, q2, m)
  {
    forall id | id in Backward(p, m) ensures GotoBehind(q2, m, id) { assert StaysBehind(q, q2, hit, m, id); }
  }

  lemma {:induction false} StillHandled(p: Block, q: Block, q2: Block, m: nat)
    requires Handled(p, q, m) && Gotos(q2) <= Gotos(q)
    ensures Handled(p, q2, m)
  {}

  /** Every label may have been hit. */
  lemma {:induction false} KeptAll(p: Block, q: Block, r: Block, hit: set<nat>)
    requires Kept(p, q, Labels(p) + Labels(q)) && Kept(q, r, hit)
    ensures Kept(p, r, Labels(p) + Labels(r))
  {
    KeptThen(p, q, r, Labels(p) + Labels(q), hit);
    forall l: nat, id: nat ensures StaysBehind(p, r, Labels(p) + Labels(r), l, id) {
      if GotoBehind(p, l, id) { TailFacts(l, p); }
    }
  }

  lemma {:induction false} Skip(p: Block, q: Block, i: nat)
    requires Progress(p, q, i + 1) && i < |Order(p)| && Backward(p, Order(p)[i]) == {}
    ensures Progress(p, q, i)
  {
    forall j: nat | i <= j < |Order(p)| ensures Handled(p, q, Order(p)[j]) {}
  }

  /** Every run is preserved and no backward goto is left. */
  ghost predicate Detected(p: Block, q: Block) {
    && Equivalent(p, q) && Proper(q) && Gotos(q) <= Gotos(p)
    && forall l: nat :: Backward(q, l) == {}
  }

  lemma {:induction false} NoneLeft(p: Block, q: Block, l: nat)
    requires Shrinks(p, q) && Gotos(q) <= Gotos(p) && (Tail(l, p).Some? ==> Handled(p, q, l))
    ensures Backward(q, l) == {}
  {
    assert ShrinksAt(p, q, l);
    if Tail(l, q).Some? {
      var s := Tail(l, q).value;
      TailFacts(l, q);
      OpensGotos(s);
      forall id | id in Backward(p, l) ensures id !in Backward(q, l) {
        assert (id, l) !in Gotos(q);
      }
      assert Backward(q, l) <= Backward(p, l);
    }
  }

  lemma {:induction false} Finish(p: Block, q0: Block, q: Block)
    requires Progress(p, q0, 0) && Equivalent(p, q) && Proper(q) && Shrinks(q0, q) && Gotos(q) == Gotos(q0)
    ensures Detected(p, q)
    ensures forall l: nat, id, m :: id in Backward(p, l) ==> (id, m) !in Gotos(q)
  {
    ShrinksThen(p, q0, q);
    forall l: nat ensures Tail(l, p).Some? ==> Handled(p, q0, l) {
      TailOrder(l, p);
      if Tail(l, p).Some? { var j :| 0 <= j < |Order(p)| && Order(p)[j] == l; }
    }
    forall l: nat ensures Backward(q, l) == {} {
      NoneLeft(p, q, l);
    }
    forall l: nat, id, m | id in Backward(p, l) ensures (id, m) !in Gotos(q) {
      assert Handled(p, q0, l);
    }
  }

  // ----- the loops one by one -----

  /** A loop was created behind label `l`, on which the gotos `names` jump back. */
  ghost predicate Created(g: Block, q: Block, l: nat, names: set<nat>) {
    exists next: nat :: CreatedAt(g, q, l, names, next)
  }

  ghost predicate CreatedAt(g: Block, q: Block, l: nat, names: set<nat>, next: nat) {
    && Below(g, next) && Tail(l, g).Some? && Bound(names, Tail(l, g).value) > 0 && Tail(l, q).Some?
    && LoopMade(g, q, l, names, Tail(l, g).value, Tail(l, q).value, next)
  }

  /** The programs while the labels from number `i` on are handled, the last one first: `stages[k]` is the one
      where those from number `i + k` on have been handled. */
  ghost predicate Stages(p: Block, i: nat, stages: seq<Block>) {
    && i <= |Order(p)| && |stages| == |Order(p)| - i + 1 && stages[|stages| - 1] == p
    && forall k :: 0 <= k < |stages| - 1 ==> StageMade(p, Order(p)[i + k], stages[k + 1], stages[k])
  }

  ghost predicate StageMade(p: Block, l: nat, g: Block, q: Block) {
    if Backward(p, l) == {} then q == g else Created(g, q, l, Backward(p, l))
  }

  lemma {:induction false} NextStageMade(p: Block, i: nat, stages: seq<Block>, q: Block)
    requires Stages(p, i + 1, stages) && StageMade(p, Order(p)[i], stages[0], q)
    ensures Stages(p, i, [q] + stages)
  {
    var more := [q] + stages;
    forall k | 0 <= k < |more| - 1 ensures StageMade(p, Order(p)[i + k], more[k + 1], more[k]) {
      if k > 0 { assert StageMade(p, Order(p)[i + 1 + (k - 1)], stages[k], stages[k - 1]); }
    }
  }

  /** The label may have lost jumps when label `l` of `g` was handled. */
  ghost predicate TouchedAt(p: Block, l: nat, g: Block, m: nat) {
    && Backward(p, l) != {} && Tail(l, g).Some? && Bound(Backward(p, l), Tail(l, g).value) > 0
    && AtLoop(l, Backward(p, l), Tail(l, g).value, m)
  }

  /** The label may have lost jumps in the step from stage `k + 1` to stage `k`. */
  ghost predicate Touches(p: Block, i: nat, stages: seq<Block>, k: nat, m: nat)
    requires Stages(p, i, stages)
  {
    k < |stages| - 1 && TouchedAt(p, Order(p)[i + k], stages[k + 1], m)
  }

  ghost predicate Collected(p: Block, i: nat, stages: seq<Block>, labels: set<nat>)
    requires Stages(p, i, stages)
  {
    forall k: nat, m: nat :: Touches(p, i, stages, k, m) ==> m in labels
  }

  lemma {:induction false} NextCollected(p: Block, i: nat, stages: seq<Block>, q: Block, labels: set<nat>,
      more: set<nat>)
    requires Stages(p, i + 1, stages) && Stages(p, i, [q] + stages) && Collected(p, i + 1, stages, labels)
    requires forall m: nat :: TouchedAt(p, Order(p)[i], stages[0], m) ==> m in more
    ensures Collected(p, i, [q] + stages, labels + more)
  {
    var all := [q] + stages;
    forall k: nat, m: nat | Touches(p, i, all, k, m) ensures m in labels + more {
      assert all[k + 1] == stages[k];
      if k > 0 { assert Touches(p, i + 1, stages, k - 1, m); }
    }
  }

  lemma {:induction false} LoopLabelsCollected(p: Block, stages: seq<Block>, labels: set<nat>)
    requires Stages(p, 0, stages) && Collected(p, 0, stages, labels)
    ensures forall j: nat :: j < |Order(p)| && Backward(p, Order(p)[j]) != {} ==> Order(p)[j] in labels
  {
    forall j: nat | j < |Order(p)| && Backward(p, Order(p)[j]) != {} ensures Order(p)[j] in labels {
      assert StageMade(p, Order(p)[0 + j], stages[j + 1], stages[j]);
      assert Touches(p, 0, stages, j, Order(p)[j]);
    }
  }

  /** One label with its backward gotos, when all later ones have been handled. */
  method HandleLabel(ghost p: Block, q: Block, ghost i: nat, l: nat, names: set<nat>, next: nat)
    returns (q2: Block, free: nat, more: set<nat>)
    requires Proper(q) && Below(q, next) && Progress(p, q, i + 1) && i < |Order(p)| && l == Order(p)[i]
    requires names == Backward(p, l)
    ensures Proper(q2) && Below(q2, free) && Progress(p, q2, i)
    ensures forall m: nat :: TouchedAt(p, l, q, m) ==> m in more
    ensures StageMade(p, l, q, q2) && (WellNested(q, {}, {}) ==> WellNested(q2, {}, {}))
  {
    if names == {} {
      q2, free, more := q, next, {};
      Skip(p, q, i);
    } else {
      assert Pending(p, q, l);
      free := next + 2;
      q2, more := CreateLoop(q, l, names, next);
      assert CreatedAt(q, q2, l, names, next);
      Advance(p, q, q2, i, next + 2);
      if WellNested(q, {}, {}) { CreatedNested(q, l, names, Tail(l, q).value, next); }
    }
  }

  /** Labels are handled from the last one to the first, so that nested loops exist before the loops
      around them. */
  method CreateAllLoops(p: Block, labels: seq<nat>, gotos: map<nat, set<nat>>)
    returns (q: Block, affected: set<nat>, ghost stages: seq<Block>)
    requires Proper(p) && labels == Order(p) && forall l :: l in labels ==> l in gotos && gotos[l] == Backward(p, l)
    ensures Proper(q) && Progress(p, q, 0) && (WellNested(p, {}, {}) ==> WellNested(q, {}, {}))
    ensures forall j: nat :: j < |labels| && Backward(p, labels[j]) != {} ==> labels[j] in affected
    ensures Stages(p, 0, stages) && stages[0] == q && Collected(p, 0, stages, affected)
  {
    var next := Top(p);
    TopBelow(p);
    Begin(p);
    q, affected, stages := p, {}, [p];
    var i: nat := |labels|;
    while i > 0
      invariant i <= |labels| && Proper(q) && Below(q, next) && Progress(p, q, i)
      invariant WellNested(p, {}, {}) ==> WellNested(q, {}, {})
      invariant Stages(p, i, stages) && stages[0] == q && Collected(p, i, stages, affected)
    {
      i := i - 1;
      var q2, free, more := HandleLabel(p, q, i, labels[i], gotos[labels[i]], next);
      NextStageMade(p, i, stages, q2);
      NextCollected(p, i, stages, q2, affected, more);
      q, next, affected, stages := q2, free, affected + more, [q2] + stages;
    }
    LoopLabelsCollected(p, stages, affected);
  }

  /** Erases the labels that are not jumped to any more. */
  method CanonicalizeAll(p: Block, labels: set<nat>) returns (q: Block)
    requires Proper(p)
    ensures Equivalent(p, q) && Proper(q) && Shrinks(p, q) && Gotos(q) == Gotos(p) && AllJumps(q) == AllJumps(p)
    ensures (forall l :: l in labels && l in Labels(q) ==> l in Targets(q))
    ensures (WellNested(p, {}, {}) ==> WellNested(q, {}, {}))
  {
    q := p;
    KeptSelf(p);
    var todo := labels;
    while todo != {}
      invariant todo <= labels && Equivalent(p, q) && Proper(q) && Shrinks(p, q) && Gotos(q) == Gotos(p)
      invariant AllJumps(q) == AllJumps(p)
      invariant forall l :: l in labels - todo && l in Labels(q) ==> l in Targets(q)
      invariant WellNested(p, {}, {}) ==> WellNested(q, {}, {})
    {
      var l :| l in todo;
      todo := todo - {l};
      var q2 := Canonicalize(q, l);
      Transitive(p, q, q2);
      ShrinksThen(p, q, q2);
      q := q2;
    }
  }

  /** The jumps are those of the last stage, and labels that may have lost jumps are still there only if they are
      jumped to. */
  ghost predicate Cleaned(p: Block, stages: seq<Block>, q: Block)
    requires Stages(p, 0, stages)
  {
    && AllJumps(q) == AllJumps(stages[0])
    && forall k: nat, m: nat :: Touches(p, 0, stages, k, m) && m in Labels(q) ==> m in Targets(q)
  }

  /** The pass: collect, create loops, erase labels without jumps. */
  method CreateLoops(p: Block) returns (q: Block)
    requires Proper(p)
    ensures Detected(p, q)
    ensures forall l: nat, id, m :: id in Backward(p, l) ==> (id, m) !in Gotos(q)
    ensures forall l: nat :: Backward(p, l) != {} && l in Labels(q) ==> l in Targets(q)
    ensures WellNested(p, {}, {}) ==> WellNested(q, {}, {})
    ensures exists stages :: Stages(p, 0, stages) && Cleaned(p, stages, q)
  {
    var labels, gotos := CollectBackwardGotos(p);
    ghost var stages;
    var loops, affected;
    loops, affected, stages := CreateAllLoops(p, labels, gotos);
    q := CanonicalizeAll(loops, affected);
    Transitive(p, loops, q);
    Finish(p, loops, q);
    assert Cleaned(p, stages, q);
    forall l: nat | Backward(p, l) != {} ensures l in affected {
      TailOrder(l, p);
      var j :| 0 <= j < |labels| && labels[j] == l;
    }
  }
}
