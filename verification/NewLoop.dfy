/** Wrapping the code behind a label in an endless loop: what the new program looks like. */
module NewLoop {
  import opened Wrappers
  import opened Clift
  import opened Static
  import opened Rules
  import opened Conditions
  import opened Places
  import opened WellFormed
  import opened InPlace
  import opened KeepForm
  import opened Branches
  import opened JumpLaws

  // ----- labels and the code behind them -----

  /** The statements behind the assignment of label `l` in its block. */
  function Tail(l: nat, b: Block): Option<Block> {
    match b
    case Nil => None
    case Cons(a, s) =>
      if a == Label(l) then Some(s)
      else
        var f := if a.Nest? then TailIn(l, a.rs) else None;
        if f.Some? then f else Tail(l, s)
  }

  function TailIn(l: nat, rs: Regions): Option<Block> {
    match rs
    case One(b) => Tail(l, b)
    case More(b, r) => var f := Tail(l, b); if f.Some? then f else TailIn(l, r)
  }

  /** The assigned labels in syntactic order. */
  function Order(b: Block): seq<nat> {
    match b case Nil => [] case Cons(a, s) => OrderOf(a) + Order(s)
  }

  function OrderOf(a: Stmt): seq<nat> {
    match a case Label(l) => [l] case Nest(_, rs) => OrderIn(rs) case _ => []
  }

  function OrderIn(rs: Regions): seq<nat> {
    match rs case One(b) => Order(b) case More(b, r) => Order(b) + OrderIn(r)
  }

  /** The gotos of a block: their names with their targets. */
  function Gotos(b: Block): set<(nat, nat)> {
    match b case Nil => {} case Cons(a, s) => GotosOf(a) + Gotos(s)
  }

  function GotosOf(a: Stmt): set<(nat, nat)> {
    match a
    case Jump(id, kind, l) => if kind == Goto then {(id, l)} else {}
    case Nest(_, rs) => GotosIn(rs)
    case _ => {}
  }

  function GotosIn(rs: Regions): set<(nat, nat)> {
    match rs case One(b) => Gotos(b) case More(b, r) => Gotos(b) + GotosIn(r)
  }

  /** The sets of a non-empty block, unfolded down to the regions of its first statement. */
  lemma Unfold(a: Stmt, s: Block)
    ensures var b := Cons(a, s);
            && Labels(b) == LabelsOf(a) + Labels(s) && Names(b) == NamesOf(a) + Names(s)
            && Order(b) == OrderOf(a) + Order(s) && Gotos(b) == GotosOf(a) + Gotos(s)
            && Targets(b) == TargetsOf(a) + Targets(s)
    ensures a.Nest? ==>
              && LabelsOf(a) == TagLabels(a.tag) + LabelsIn(a.rs) && NamesOf(a) == NamesIn(a.rs)
              && OrderOf(a) == OrderIn(a.rs) && GotosOf(a) == GotosIn(a.rs) && TargetsOf(a) == TargetsIn(a.rs)
              && (DistinctOf(a) ==> DistinctIn(a.rs) && TagLabels(a.tag) !! LabelsIn(a.rs))
    ensures a.Jump? ==> NamesOf(a) == {a.id}
    ensures a.Label? ==> LabelsOf(a) == {a.l} && OrderOf(a) == [a.l]
  {}

  lemma {:induction false} OrderLabels(b: Block)
    ensures forall l :: l in Order(b) ==> l in Labels(b)
  {
    if b.Cons? { Unfold(b.hd, b.tl); }
    if b.Cons? {
      OrderLabels(b.tl);
      if b.hd.Nest? { OrderLabelsIn(b.hd.rs); }
    }
  }

  lemma {:induction false} OrderLabelsIn(rs: Regions)
    ensures forall l :: l in OrderIn(rs) ==> l in LabelsIn(rs)
  {
    OrderLabels(rs.b);
    if rs.More? { OrderLabelsIn(rs.rest); }
  }

  lemma {:induction false} TailOrder(l: nat, b: Block)
    ensures Tail(l, b).Some? <==> l in Order(b)
  {
    if b.Cons? { Unfold(b.hd, b.tl); }
    if b.Cons? {
      TailOrder(l, b.tl);
      if b.hd.Nest? { TailOrderIn(l, b.hd.rs); }
    }
  }

  lemma {:induction false} TailOrderIn(l: nat, rs: Regions)
    ensures TailIn(l, rs).Some? <==> l in OrderIn(rs)
  {
    TailOrder(l, rs.b);
    if rs.More? { TailOrderIn(l, rs.rest); }
  }

  /** Sub-blocks inherit everything. */
  lemma {:induction false} TailFacts(l: nat, b: Block)
    requires Tail(l, b).Some?
    ensures var s := Tail(l, b).value;
            && (Plain(b) ==> Plain(s)) && (Distinct(b) ==> Distinct(s) && l !in Labels(s))
            && Labels(s) <= Labels(b) && Names(s) <= Names(b) && Gotos(s) <= Gotos(b) && l in Labels(b)
            && Targets(s) <= Targets(b) && (DistinctNames(b) ==> DistinctNames(s))
  {
    if b.Cons? { Unfold(b.hd, b.tl); }
    if b.hd == Label(l) {
    } else if b.hd.Nest? && TailIn(l, b.hd.rs).Some? {
      TailFactsIn(l, b.hd.rs);
    } else {
      TailFacts(l, b.tl);
    }
  }

  lemma {:induction false} TailFactsIn(l: nat, rs: Regions)
    requires TailIn(l, rs).Some?
    ensures var s := TailIn(l, rs).value;
            && (PlainIn(rs) ==> Plain(s)) && (DistinctIn(rs) ==> Distinct(s) && l !in Labels(s))
            && Labels(s) <= LabelsIn(rs) && Names(s) <= NamesIn(rs) && Gotos(s) <= GotosIn(rs) && l in LabelsIn(rs)
            && Targets(s) <= TargetsIn(rs) && (DistinctNamesIn(rs) ==> DistinctNames(s))
  {
    if Tail(l, rs.b).Some? { TailFacts(l, rs.b); } else { TailFactsIn(l, rs.rest); }
  }

  /** The labels behind `l` come right after it in syntactic order. */
  lemma {:induction false} OrderTail(l: nat, b: Block) returns (u: seq<nat>, v: seq<nat>)
    requires Tail(l, b).Some?
    ensures Order(b) == u + [l] + Order(Tail(l, b).value) + v
  {
    if b.Cons? { Unfold(b.hd, b.tl); }
    var Cons(a, s) := b;
    if a == Label(l) {
      u, v := [], [];
    } else if a.Nest? && TailIn(l, a.rs).Some? {
      u, v := OrderTailIn(l, a.rs);
      v := v + Order(s);
    } else {
      u, v := OrderTail(l, s);
      u := OrderOf(a) + u;
    }
  }

  lemma {:induction false} OrderTailIn(l: nat, rs: Regions) returns (u: seq<nat>, v: seq<nat>)
    requires TailIn(l, rs).Some?
    ensures OrderIn(rs) == u + [l] + Order(TailIn(l, rs).value) + v
  {
    if Tail(l, rs.b).Some? {
      u, v := OrderTail(l, rs.b);
      if rs.More? { v := v + OrderIn(rs.rest); }
    } else {
      u, v := OrderTailIn(l, rs.rest);
      u := Order(rs.b) + u;
    }
  }

  // ----- applying the rule -----

  predicate FreshFor(r: Rule, b: Block) {
    && r.Enloop? && r.tag.While? && TagLabels(r.tag) !! Labels(b)
    && (r.leave.Some? ==> r.leave.value.Jump? && r.leave.value.id !in Names(b))
  }

  predicate FreshForIn(r: Rule, rs: Regions) {
    && r.Enloop? && r.tag.While? && TagLabels(r.tag) !! LabelsIn(rs)
    && (r.leave.Some? ==> r.leave.value.Jump? && r.leave.value.id !in NamesIn(rs))
  }

  lemma {:induction false} EnloopClean(r: Rule, b: Block)
    requires FreshFor(r, b) && r.l !in Order(b) && Plain(b)
    ensures Clean(r, b)
  {
    if b.Cons? { Unfold(b.hd, b.tl); }
    if b.Cons? {
      EnloopClean(r, b.tl);
      if b.hd.Nest? { EnloopCleanIn(r, b.hd.rs); }
    }
  }

  lemma {:induction false} EnloopCleanIn(r: Rule, rs: Regions)
    requires FreshForIn(r, rs) && r.l !in OrderIn(rs) && PlainIn(rs)
    ensures CleanIn(r, rs)
  {
    EnloopClean(r, rs.b);
    if rs.More? { EnloopCleanIn(r, rs.rest); }
  }

  lemma {:induction false} EnloopOk(r: Rule, b: Block)
    requires FreshFor(r, b) && Plain(b) && Distinct(b) && Tail(r.l, b).Some?
    requires SiteOk(r, Label(r.l), Tail(r.l, b).value)
    ensures Ok(r, b)
  {
    if b.Cons? { Unfold(b.hd, b.tl); }
    var Cons(a, s) := b;
    OrderLabels(s);
    if a.Nest? {
      TailOrderIn(r.l, a.rs);
      OrderLabelsIn(a.rs);
    }
    if a == Label(r.l) {
      EnloopClean(r, s);
      CleanOk(r, s);
    } else if a.Nest? && TailIn(r.l, a.rs).Some? {
      EnloopOkIn(r, a.rs);
      EnloopClean(r, s);
      CleanOk(r, s);
    } else {
      EnloopOk(r, s);
      if a.Nest? {
        EnloopCleanIn(r, a.rs);
        CleanOkIn(r, a.rs);
      }
    }
  }

  lemma {:induction false} EnloopOkIn(r: Rule, rs: Regions)
    requires FreshForIn(r, rs) && PlainIn(rs) && DistinctIn(rs) && TailIn(r.l, rs).Some?
    requires SiteOk(r, Label(r.l), TailIn(r.l, rs).value)
    ensures OkIn(r, rs)
  {
    OrderLabels(rs.b);
    TailOrder(r.l, rs.b);
    if Tail(r.l, rs.b).Some? {
      EnloopOk(r, rs.b);
      if rs.More? {
        OrderLabelsIn(rs.rest);
        EnloopCleanIn(r, rs.rest);
        CleanOkIn(r, rs.rest);
      }
    } else {
      EnloopClean(r, rs.b);
      CleanOk(r, rs.b);
      EnloopOkIn(r, rs.rest);
    }
  }

  function LoopOf(r: Rule, s: Block): Stmt
    requires r.Enloop?
  {
    Nest(r.tag, One(App(Take(r.n, s), LeaveBlock(r.leave))))
  }

  lemma EnloopHere(r: Rule, s: Block)
    requires r.Enloop? && Plain(s) && FreshFor(r, s) && r.l !in Labels(s) && r.n <= Len(s)
    ensures Apply(r, Cons(Label(r.l), s)) == Cons(Label(r.l), Cons(LoopOf(r, s), Drop(r.n, s)))
    ensures Apply(r, s) == s
  {
    var a, m, rest := Label(r.l), Take(r.n, s), Drop(r.n, s);
    OrderLabels(s);
    EnloopClean(r, s);
    ApplyClean(r, s, Nil);
    TakeDrop(r.n, s);
    CleanTail(r, m, rest);
    ApplyClean(r, rest, Nil);
    assert Local(r, a, m) == Cons(a, Single(LoopOf(r, s)));
    assert App(Cons(a, Single(LoopOf(r, s))), rest) == Cons(a, App(Single(LoopOf(r, s)), rest));
    assert App(Single(LoopOf(r, s)), rest) == Cons(LoopOf(r, s), App(Nil, rest));
  }

  lemma {:induction false} CleanTail(r: Rule, x: Block, y: Block)
    requires Clean(r, App(x, y))
    ensures Clean(r, x) && Clean(r, y)
  {
    if x.Cons? { CleanTail(r, x.tl, y); }
  }

  /** The new loop stands behind the label. */
  lemma {:induction false} EnloopAt(r: Rule, b: Block, k: Block) returns (k1: Block)
    requires FreshFor(r, b) && Plain(b) && Distinct(b) && Tail(r.l, b).Some? && r.n <= Len(Tail(r.l, b).value)
    requires Ok(r, b)
    ensures var s := Tail(r.l, b).value;
            IsCont(Cons(Label(r.l), Cons(LoopOf(r, s), App(Drop(r.n, s), k1))), Apply(r, b), k)
  {
    if b.Cons? { Unfold(b.hd, b.tl); }
    var Cons(a, s) := b;
    if a == Label(r.l) {
      k1 := k;
      EnloopHere(r, s);
      assert App(Apply(r, b), k) == Cons(a, App(Cons(LoopOf(r, s), Drop(r.n, s)), k));
    } else if a.Nest? && TailIn(r.l, a.rs).Some? {
      k1 := EnloopAtIn(r, a.rs, Inner(ApplyStmt(r, a), App(Apply(r, s), k)));
    } else {
      k1 := EnloopAt(r, s, k);
    }
  }

  lemma {:induction false} EnloopAtIn(r: Rule, rs: Regions, k: Block) returns (k1: Block)
    requires FreshForIn(r, rs) && PlainIn(rs) && DistinctIn(rs) && TailIn(r.l, rs).Some?
    requires r.n <= Len(TailIn(r.l, rs).value) && OkIn(r, rs)
    ensures var s := TailIn(r.l, rs).value;
            IsContIn(Cons(Label(r.l), Cons(LoopOf(r, s), App(Drop(r.n, s), k1))), ApplyIn(r, rs), k)
  {
    if Tail(r.l, rs.b).Some? { k1 := EnloopAt(r, rs.b, k); } else { k1 := EnloopAtIn(r, rs.rest, k); }
  }

  // ----- form of the result -----

  lemma {:induction false} OrderApp(x: Block, y: Block)
    ensures Order(App(x, y)) == Order(x) + Order(y) && Gotos(App(x, y)) == Gotos(x) + Gotos(y)
  {
    if x.Cons? { OrderApp(x.tl, y); }
  }

  /** Everything the new program keeps, for blocks: operations and targets, names of jumps, and the order of
      labels with the gotos. */
  ghost predicate Grown(r: Rule, b: Block, c: Block)
    requires r.Enloop? && r.tag.While?
  {
    OpsGrown(r, b, c) && NamesGrown(r, b, c) && Order(c) == Order(b) && Gotos(c) == Gotos(b)
  }

  ghost predicate OpsGrown(r: Rule, b: Block, c: Block)
    requires r.Enloop? && r.tag.While?
  {
    && Ops(c) <= Ops(b) + {r.tag.id} && (DistinctOps(b) && r.tag.id !in Ops(b) ==> DistinctOps(c))
    && Targets(c) <= Targets(b) + LeaveTargets(r)
  }

  ghost predicate NamesGrown(r: Rule, b: Block, c: Block)
    requires r.Enloop?
  {
    Names(c) <= Names(b) + LeaveNames(r) && (DistinctNames(b) ==> DistinctNames(c))
  }

  ghost predicate GrownIn(r: Rule, b: Regions, c: Regions)
    requires r.Enloop? && r.tag.While?
  {
    OpsGrownIn(r, b, c) && NamesGrownIn(r, b, c) && OrderIn(c) == OrderIn(b) && GotosIn(c) == GotosIn(b)
  }

  ghost predicate OpsGrownIn(r: Rule, b: Regions, c: Regions)
    requires r.Enloop? && r.tag.While?
  {
    && OpsIn(c) <= OpsIn(b) + {r.tag.id} && (DistinctOpsIn(b) && r.tag.id !in OpsIn(b) ==> DistinctOpsIn(c))
    && TargetsIn(c) <= TargetsIn(b) + LeaveTargets(r)
  }

  ghost predicate NamesGrownIn(r: Rule, b: Regions, c: Regions)
    requires r.Enloop?
  {
    NamesIn(c) <= NamesIn(b) + LeaveNames(r) && (DistinctNamesIn(b) ==> DistinctNamesIn(c))
  }

  function LeaveTargets(r: Rule): set<nat>
    requires r.Enloop?
  {
    if r.leave.Some? && r.leave.value.Jump? then {r.leave.value.l} else {}
  }

  function LeaveNames(r: Rule): set<nat>
    requires r.Enloop?
  {
    if r.leave.Some? && r.leave.value.Jump? then {r.leave.value.id} else {}
  }

  predicate LeavesByBreak(r: Rule)
    requires r.Enloop?
  {
    r.leave.Some? ==> r.leave.value.Jump? && r.leave.value.kind == BreakTo
  }

  lemma GrownOps(r: Rule, s: Block)
    requires FreshFor(r, s) && LeavesByBreak(r) && r.n <= Len(s)
    ensures var c := Cons(LoopOf(r, s), Drop(r.n, s));
            && Ops(c) <= Ops(s) + {r.tag.id} && (DistinctOps(s) && r.tag.id !in Ops(s) ==> DistinctOps(c))
            && Targets(c) <= Targets(s) + LeaveTargets(r)
  {
    var m, rest, v := Take(r.n, s), Drop(r.n, s), LeaveBlock(r.leave);
    var body := App(m, v);
    TakeDrop(r.n, s);
    OpsApp(m, rest);
    OpsApp(m, v);
    LeaveSets(r);
    if DistinctOps(s) {
      DistinctOpsSplit(m, rest);
      DistinctOpsJoin(m, v);
    }
    NestSets(r.tag, One(body), rest);
    assert OpsIn(One(body)) == Ops(body) && TargetsIn(One(body)) == Targets(body);
    assert DistinctOpsIn(One(body)) <==> DistinctOps(body);
  }

  lemma GrownNames(r: Rule, s: Block)
    requires FreshFor(r, s) && LeavesByBreak(r) && r.n <= Len(s)
    ensures var c := Cons(LoopOf(r, s), Drop(r.n, s));
            && Names(c) <= Names(s) + LeaveNames(r) && (DistinctNames(s) ==> DistinctNames(c))
            && Order(c) == Order(s) && Gotos(c) == Gotos(s)
  {
    var m, rest, v := Take(r.n, s), Drop(r.n, s), LeaveBlock(r.leave);
    var body, loop := App(m, v), LoopOf(r, s);
    TakeDrop(r.n, s);
    OrderApp(m, rest);
    NamesApp(m, rest);
    OrderApp(m, v);
    NamesApp(m, v);
    LeaveSets(r);
    Unfold(loop, rest);
    assert loop.rs == One(body) && NamesIn(loop.rs) == Names(body) && OrderIn(loop.rs) == Order(body)
        && GotosIn(loop.rs) == Gotos(body);
    assert DistinctNamesIn(loop.rs) <==> DistinctNames(body);
  }

  lemma GrownHere(r: Rule, s: Block)
    requires FreshFor(r, s) && LeavesByBreak(r) && r.n <= Len(s)
    ensures Grown(r, Cons(Label(r.l), s), Cons(Label(r.l), Cons(LoopOf(r, s), Drop(r.n, s))))
  {
    GrownOps(r, s);
    GrownNames(r, s);
  }

  lemma LeaveSets(r: Rule)
    requires r.Enloop? && LeavesByBreak(r)
    ensures var v := LeaveBlock(r.leave);
            && Ops(v) == {} && DistinctOps(v) && Targets(v) == LeaveTargets(r) && Names(v) == LeaveNames(r)
            && DistinctNames(v) && Order(v) == [] && Gotos(v) == {}
  {
    if r.leave.Some? {
      JumpSets(r.leave.value);
      assert Order(Single(r.leave.value)) == OrderOf(r.leave.value) + Order(Nil);
      assert Gotos(Single(r.leave.value)) == GotosOf(r.leave.value) + Gotos(Nil);
    }
  }

  lemma {:induction false} EnloopGrown(r: Rule, b: Block)
    requires FreshFor(r, b) && LeavesByBreak(r) && Plain(b) && Distinct(b) && Ok(r, b)
    ensures Grown(r, b, Apply(r, b)) && (r.l !in Order(b) ==> Apply(r, b) == b)
  {
    if b.Cons? { Unfold(b.hd, b.tl); }
    match b
    case Nil =>
    case Cons(a, s) =>
      OrderLabels(s);
      if a == Label(r.l) {
        EnloopHere(r, s);
        GrownHere(r, s);
      } else {
        EnloopGrown(r, s);
        if a.Nest? {
          EnloopGrownIn(r, a.rs);
          OrderLabelsIn(a.rs);
          GrownCons(r, a, s);
        }
      }
  }

  /** The loop is in the regions of a statement or behind it, but not in both. */
  lemma OpsGrownCons(r: Rule, tag: Tag, rs: Regions, s: Block, ts: Regions, t: Block)
    requires r.Enloop? && r.tag.While? && OpsGrownIn(r, rs, ts) && OpsGrown(r, s, t) && (ts == rs || t == s)
    ensures OpsGrown(r, Cons(Nest(tag, rs), s), Cons(Nest(tag, ts), t))
  {
    NestSets(tag, rs, s);
    NestSets(tag, ts, t);
  }

  lemma NamesGrownCons(r: Rule, tag: Tag, rs: Regions, s: Block, ts: Regions, t: Block)
    requires r.Enloop? && NamesGrownIn(r, rs, ts) && NamesGrown(r, s, t) && (ts == rs || t == s)
    requires LeaveNames(r) !! NamesIn(rs) + Names(s)
    ensures NamesGrown(r, Cons(Nest(tag, rs), s), Cons(Nest(tag, ts), t))
  {
    assert Names(Cons(Nest(tag, rs), s)) == NamesIn(rs) + Names(s);
    assert Names(Cons(Nest(tag, ts), t)) == NamesIn(ts) + Names(t);
  }

  lemma OrderKeptCons(tag: Tag, rs: Regions, s: Block, ts: Regions, t: Block)
    requires OrderIn(ts) == OrderIn(rs) && GotosIn(ts) == GotosIn(rs) && Order(t) == Order(s) && Gotos(t) == Gotos(s)
    ensures Order(Cons(Nest(tag, ts), t)) == Order(Cons(Nest(tag, rs), s)) == OrderIn(rs) + Order(s)
    ensures Gotos(Cons(Nest(tag, ts), t)) == Gotos(Cons(Nest(tag, rs), s))
  {
    assert OrderOf(Nest(tag, rs)) == OrderIn(rs) && OrderOf(Nest(tag, ts)) == OrderIn(ts);
    assert GotosOf(Nest(tag, rs)) == GotosIn(rs) && GotosOf(Nest(tag, ts)) == GotosIn(ts);
  }

  lemma GrownCons(r: Rule, a: Stmt, s: Block)
    requires r.Enloop? && r.tag.While? && a.Nest? && !Site(r, a)
    requires LeaveNames(r) !! NamesIn(a.rs) + Names(s)
    requires Grown(r, s, Apply(r, s)) && (r.l !in Order(s) ==> Apply(r, s) == s)
    requires GrownIn(r, a.rs, ApplyIn(r, a.rs)) && (r.l !in OrderIn(a.rs) ==> ApplyIn(r, a.rs) == a.rs)
    requires r.l !in OrderIn(a.rs) || r.l !in Order(s)
    ensures Grown(r, Cons(a, s), Apply(r, Cons(a, s)))
    ensures r.l !in Order(Cons(a, s)) ==> Apply(r, Cons(a, s)) == Cons(a, s)
  {
    var ts, t := ApplyIn(r, a.rs), Apply(r, s);
    assert Apply(r, Cons(a, s)) == Cons(Nest(a.tag, ts), t);
    OpsGrownCons(r, a.tag, a.rs, s, ts, t);
    NamesGrownCons(r, a.tag, a.rs, s, ts, t);
    OrderKeptCons(a.tag, a.rs, s, ts, t);
  }

  lemma {:induction false} EnloopGrownIn(r: Rule, rs: Regions)
    requires FreshForIn(r, rs) && LeavesByBreak(r) && PlainIn(rs) && DistinctIn(rs) && OkIn(r, rs)
    ensures GrownIn(r, rs, ApplyIn(r, rs)) && (r.l !in OrderIn(rs) ==> ApplyIn(r, rs) == rs)
  {
    EnloopGrown(r, rs.b);
    if rs.More? {
      OrderLabels(rs.b);
      OrderLabelsIn(rs.rest);
      EnloopGrownIn(r, rs.rest);
    }
  }

  // ----- labels that come earlier keep the code behind them -----

  lemma {:induction false} EnloopTail(r: Rule, l: nat, b: Block)
    requires FreshFor(r, b) && Plain(b) && Distinct(b) && Ok(r, b) && l != r.l && l in Order(b)
    requires r.l in Order(b) ==> Tail(r.l, b).Some? && l !in Labels(Tail(r.l, b).value)
    ensures Tail(l, b).Some? && Tail(l, Apply(r, b)) == Some(Apply(r, Tail(l, b).value))
  {
    if b.Cons? { Unfold(b.hd, b.tl); }
    TailOrder(l, b);
    TailOrder(r.l, b);
    var Cons(a, s) := b;
    OrderLabels(s);
    TailOrder(l, s);
    TailOrder(r.l, s);
    if a == Label(r.l) {
    } else if a.Nest? {
      TailOrderIn(l, a.rs);
      TailOrderIn(r.l, a.rs);
      OrderLabelsIn(a.rs);
      if l in OrderIn(a.rs) {
        EnloopTailIn(r, l, a.rs);
      } else {
        if r.l in OrderIn(a.rs) { OrderLabels(TailIn(r.l, a.rs).value); }
        EnloopAbsentIn(r, l, a.rs);
        EnloopTail(r, l, s);
      }
    } else if a != Label(l) {
      EnloopTail(r, l, s);
    }
  }

  /** A label that is absent stays absent. */
  lemma EnloopAbsentIn(r: Rule, l: nat, rs: Regions)
    requires FreshForIn(r, rs) && PlainIn(rs) && DistinctIn(rs) && OkIn(r, rs) && l !in OrderIn(rs)
    ensures TailIn(l, ApplyIn(r, rs)) == None
  {
    OrderApplyIn(r, rs);
    TailOrderIn(l, ApplyIn(r, rs));
  }

  lemma {:induction false} OrderApply(r: Rule, b: Block)
    requires FreshFor(r, b) && Plain(b) && Distinct(b) && Ok(r, b)
    ensures Order(Apply(r, b)) == Order(b)
  {
    if b.Cons? { Unfold(b.hd, b.tl); }
    match b
    case Nil =>
    case Cons(a, s) =>
      if a == Label(r.l) {
        EnloopHere(r, s);
        var m, rest, v := Take(r.n, s), Drop(r.n, s), LeaveBlock(r.leave);
        TakeDrop(r.n, s);
        OrderApp(m, rest);
        OrderApp(m, v);
        assert Order(v) == [];
        assert OrderIn(One(App(m, v))) == Order(App(m, v));
        assert Order(Cons(LoopOf(r, s), rest)) == OrderIn(LoopOf(r, s).rs) + Order(rest);
      } else {
        OrderApply(r, s);
        if a.Nest? { OrderApplyIn(r, a.rs); }
      }
  }

  lemma {:induction false} OrderApplyIn(r: Rule, rs: Regions)
    requires FreshForIn(r, rs) && PlainIn(rs) && DistinctIn(rs) && OkIn(r, rs)
    ensures OrderIn(ApplyIn(r, rs)) == OrderIn(rs)
  {
    OrderApply(r, rs.b);
    if rs.More? { OrderApplyIn(r, rs.rest); }
  }

  lemma {:induction false} EnloopTailIn(r: Rule, l: nat, rs: Regions)
    requires FreshForIn(r, rs) && PlainIn(rs) && DistinctIn(rs) && OkIn(r, rs) && l != r.l && l in OrderIn(rs)
    requires r.l in OrderIn(rs) ==> TailIn(r.l, rs).Some? && l !in Labels(TailIn(r.l, rs).value)
    ensures TailIn(l, rs).Some? && TailIn(l, ApplyIn(r, rs)) == Some(Apply(r, TailIn(l, rs).value))
  {
    TailOrderIn(l, rs);
    TailOrder(l, rs.b);
    TailOrder(r.l, rs.b);
    if l in Order(rs.b) {
      EnloopTail(r, l, rs.b);
    } else {
      OrderLabelsIn(rs.rest);
      OrderLabels(rs.b);
      OrderApply(r, rs.b);
      TailOrder(l, Apply(r, rs.b));
      EnloopTailIn(r, l, rs.rest);
    }
  }
}
