/** The walk that collects labels and the gotos that jump back to them. */
module GotoCollection {
  import opened Wrappers
  import opened Clift
  import opened Rules
  import opened Conditions
  import opened Branches
  import opened Positions
  import opened NewLoop
  import opened OpenGotos

  /** The gotos to label `l`. */
  function To(l: nat, gotos: set<(nat, nat)>): set<nat> { set pr | pr in gotos && pr.1 == l :: pr.0 }

  /** The gotos that jump back to label `l` from behind it without leaving a loop. */
  function Backward(p: Block, l: nat): set<nat> {
    match Tail(l, p) case None => {} case Some(s) => To(l, Opens(s))
  }

  predicate OpenTag(tag: Tag) { tag.Scope? || tag.Branch? }

  // ----- climbing -----

  /** Only block statements and branches lie between the block at `home` and the block at `path`. */
  predicate OpenTo(p: Block, home: Path, path: Path)
    requires BlockAt(p, path).Some?
    decreases |path|
  {
    path == home || (path != [] && BlockAt(p, Up(path)).Some? && OpenTag(Parent(p, path).tag)
        && OpenTo(p, home, Up(path)))
  }

  /** Climbs from the block of a goto through block statements and branches to the block of its label. */
  method IsBackwardGoto(p: Block, goto: Path, home: Path) returns (r: bool)
    requires BlockAt(p, goto).Some?
    ensures r == OpenTo(p, home, goto)
  {
    var cur := goto;
    while cur != home
      invariant BlockAt(p, cur).Some? && OpenTo(p, home, cur) == OpenTo(p, home, goto)
      decreases |cur|
    {
      if cur == [] || !OpenTag(Parent(p, cur).tag) { return false; }
      cur := Up(cur);
    }
    r := true;
  }

  lemma OpenDown(p: Block, home: Path, path: Path, i: nat, j: nat)
    requires BlockAt(p, path).Some? && i < Len(BlockAt(p, path).value)
    requires NthStmt(BlockAt(p, path).value, i).Nest? && j < Count(NthStmt(BlockAt(p, path).value, i).rs)
    requires home != path + [(i, j)]
    ensures BlockAt(p, path + [(i, j)]).Some?
    ensures OpenTo(p, home, path + [(i, j)])
        == (OpenTag(NthStmt(BlockAt(p, path).value, i).tag) && OpenTo(p, home, path))
  {
    var down := path + [(i, j)];
    Down(p, path, i, j);
    assert Up(down) == path && Last(down) == (i, j);
  }

  lemma {:induction false} OpenIsPrefix(p: Block, home: Path, path: Path)
    requires BlockAt(p, path).Some? && OpenTo(p, home, path)
    ensures |home| <= |path|
    decreases |path|
  {
    if path != home { OpenIsPrefix(p, home, Up(path)); }
  }

  // ----- the walk -----

  /** Visited labels in order, the blocks they are in, and the gotos collected for them. */
  datatype Found = Found(order: seq<nat>, at: map<nat, Path>, gotos: map<nat, set<nat>>)

  /** The path leads into statement `i` or later of the block at `path`. */
  predicate Beyond(q: Path, path: Path, i: nat, j: nat) {
    |q| > |path| && q[..|path|] == path && (q[|path|].0 > i || (q[|path|].0 == i && q[|path|].1 >= j))
  }

  function Elems(s: seq<nat>): set<nat> { set x | x in s }

  predicate FoundOk(f: Found) { f.at.Keys == Elems(f.order) && f.gotos.Keys == Elems(f.order) }

  /** No visited label lies in what is still to be walked. */
  predicate Ready(f: Found, path: Path, i: nat, j: nat) {
    FoundOk(f) && forall l :: l in f.at ==> !Beyond(f.at[l], path, i, j)
  }

  /** A label visited before gets the open gotos, if the way to it is open. */
  predicate OldLabel(p: Block, f: Found, g: Found, path: Path, opens: set<(nat, nat)>, l: nat)
    requires BlockAt(p, path).Some?
  {
    && l in f.at && l in f.gotos && l in g.at && l in g.gotos && g.at[l] == f.at[l]
    && g.gotos[l] == f.gotos[l] + (if OpenTo(p, f.at[l], path) then To(l, opens) else {})
  }

  /** A label met on the way gets the open gotos behind it. */
  predicate NewLabel(g: Found, path: Path, tails: nat -> Option<Block>, l: nat) {
    && l in g.at && l in g.gotos && |g.at[l]| >= |path| && g.at[l][..|path|] == path
    && tails(l).Some? && g.gotos[l] == To(l, Opens(tails(l).value))
  }

  /** What walking adds. */
  ghost predicate Walked(p: Block, f: Found, g: Found, path: Path, order: seq<nat>, opens: set<(nat, nat)>,
      tails: nat -> Option<Block>)
    requires BlockAt(p, path).Some?
  {
    && g.order == f.order + order && FoundOk(g)
    && (forall l :: l in f.at ==> OldLabel(p, f, g, path, opens, l))
    && (forall l :: l in order ==> NewLabel(g, path, tails, l))
  }

  function BlockTails(s: Block): nat -> Option<Block> { (l: nat) => Tail(l, s) }

  function RegionTails(rs: Regions): nat -> Option<Block> { (l: nat) => TailIn(l, rs) }

  function StmtTails(a: Stmt): nat -> Option<Block> { (l: nat) => if a.Nest? then TailIn(l, a.rs) else None }

  lemma ToUnion(l: nat, x: set<(nat, nat)>, y: set<(nat, nat)>)
    ensures To(l, x + y) == To(l, x) + To(l, y) && To(l, {}) == {}
  {}

  predicate SameTail(t: nat -> Option<Block>, u: nat -> Option<Block>, l: nat) { t(l) == u(l) }

  ghost predicate SameTails(t: nat -> Option<Block>, u: nat -> Option<Block>, order: seq<nat>) {
    forall l :: l in order ==> SameTail(t, u, l)
  }

  /** The way to a label is not open. */
  predicate ClosedAt(p: Block, g: Found, path: Path, l: nat)
    requires BlockAt(p, path).Some?
  {
    l in g.at && !OpenTo(p, g.at[l], path)
  }

  ghost predicate Closed(p: Block, g: Found, path: Path, order: seq<nat>)
    requires BlockAt(p, path).Some?
  {
    forall l :: l in order ==> ClosedAt(p, g, path, l)
  }

  predicate DeeperAt(g: Found, path: Path, l: nat) { l in g.at && |g.at[l]| > |path| }

  ghost predicate Deeper(g: Found, path: Path, order: seq<nat>) { forall l :: l in order ==> DeeperAt(g, path, l) }

  lemma DeeperClosed(p: Block, g: Found, path: Path, order: seq<nat>)
    requires BlockAt(p, path).Some? && Deeper(g, path, order)
    ensures Closed(p, g, path, order)
  {
    forall l | l in order ensures ClosedAt(p, g, path, l) {
      assert DeeperAt(g, path, l);
      if OpenTo(p, g.at[l], path) { OpenIsPrefix(p, g.at[l], path); }
    }
  }

  lemma StatementTails(a: Stmt, t: Block)
    requires Distinct(Cons(a, t)) && !a.Label?
    ensures SameTails(BlockTails(Cons(a, t)), StmtTails(a), OrderOf(a))
    ensures SameTails(BlockTails(Cons(a, t)), BlockTails(t), Order(t))
  {
    var b := Cons(a, t);
    Unfold(a, t);
    OrderLabels(t);
    if a.Nest? { OrderLabelsIn(a.rs); }
    forall l | l in OrderOf(a) ensures SameTail(BlockTails(b), StmtTails(a), l) { TailOrderIn(l, a.rs); }
    forall l | l in Order(t) ensures SameTail(BlockTails(b), BlockTails(t), l) { if a.Nest? { TailOrderIn(l, a.rs); } }
  }

  lemma RegionsTails(rs: Regions)
    requires DistinctIn(rs) && rs.More?
    ensures SameTails(RegionTails(rs), BlockTails(rs.b), Order(rs.b))
    ensures SameTails(RegionTails(rs), RegionTails(rs.rest), OrderIn(rs.rest))
  {
    OrderLabels(rs.b);
    OrderLabelsIn(rs.rest);
    forall l | l in Order(rs.b) ensures SameTail(RegionTails(rs), BlockTails(rs.b), l) { TailOrder(l, rs.b); }
    forall l | l in OrderIn(rs.rest) ensures SameTail(RegionTails(rs), RegionTails(rs.rest), l) { TailOrder(l, rs.b); }
  }

  /** Two walks in a row; the way to the labels of the first is not open in the second. */
  lemma WalkedThen(p: Block, f: Found, g: Found, h: Found, path: Path, o1: seq<nat>, o2: seq<nat>,
                   x1: set<(nat, nat)>, x2: set<(nat, nat)>, t1: nat -> Option<Block>, t2: nat -> Option<Block>,
                       t: nat -> Option<Block>)
    requires BlockAt(p, path).Some? && FoundOk(f) && Walked(p, f, g, path, o1, x1, t1)
    requires Walked(p, g, h, path, o2, x2, t2)
    requires Closed(p, g, path, o1) && SameTails(t, t1, o1) && SameTails(t, t2, o2)
    ensures Walked(p, f, h, path, o1 + o2, x1 + x2, t)
  {
    assert h.order == f.order + (o1 + o2);
    forall l | l in f.at ensures OldLabel(p, f, h, path, x1 + x2, l) {
      assert OldLabel(p, f, g, path, x1, l);
      assert OldLabel(p, g, h, path, x2, l);
      ToUnion(l, x1, x2);
    }
    forall l | l in o1 + o2 ensures NewLabel(h, path, t, l) {
      if l in o2 {
        assert NewLabel(h, path, t2, l) && SameTail(t, t2, l);
      } else {
        assert NewLabel(g, path, t1, l) && ClosedAt(p, g, path, l) && SameTail(t, t1, l);
        assert OldLabel(p, g, h, path, x2, l);
      }
    }
  }

  lemma WalkedNothing(p: Block, f: Found, path: Path, t: nat -> Option<Block>)
    requires BlockAt(p, path).Some? && FoundOk(f)
    ensures Walked(p, f, f, path, [], {}, t)
  {
    assert f.order + [] == f.order;
    forall l | l in f.at ensures OldLabel(p, f, f, path, {}, l) { ToUnion(l, {}, {}); }
  }

  /** The walk of a block that begins with a label. */
  lemma WalkedLabel(p: Block, f: Found, g: Found, path: Path, l: nat, t: Block)
    requires BlockAt(p, path).Some? && FoundOk(f) && l !in f.at && l !in Order(t)
    requires Walked(p, Found(f.order + [l], f.at[l := path], f.gotos[l := {}]), g, path, Order(t), Opens(t),
        BlockTails(t))
    ensures Walked(p, f, g, path, [l] + Order(t), Opens(t), BlockTails(Cons(Label(l), t)))
  {
    var f1 := Found(f.order + [l], f.at[l := path], f.gotos[l := {}]);
    var b := Cons(Label(l), t);
    assert f.order + [l] + Order(t) == f.order + ([l] + Order(t));
    forall m | m in f.at ensures OldLabel(p, f, g, path, Opens(t), m) {
      assert OldLabel(p, f1, g, path, Opens(t), m);
    }
    forall m | m in [l] + Order(t) ensures NewLabel(g, path, BlockTails(b), m) {
      if m == l {
        assert OldLabel(p, f1, g, path, Opens(t), l);
        assert g.gotos[l] == {} + To(l, Opens(t)) && g.at[l] == path && path[..|path|] == path;
      } else {
        assert NewLabel(g, path, BlockTails(t), m);
      }
    }
  }

  lemma {:induction false} LenDrop(n: nat, b: Block)
    requires n <= Len(b)
    ensures Len(Drop(n, b)) == Len(b) - n
  {
    if n > 0 { LenDrop(n - 1, b.tl); }
  }

  /** A statement without regions: only a goto to a visited label with an open way is collected. */
  lemma JumpWalked(p: Block, f: Found, g: Found, path: Path, a: Stmt)
    requires BlockAt(p, path).Some? && FoundOk(f) && !a.Label? && !a.Nest?
    requires g == if a.Jump? && a.kind == Goto && a.l in f.at && OpenTo(p, f.at[a.l], path)
                  then f.(gotos := f.gotos[a.l := f.gotos[a.l] + {a.id}]) else f
    ensures Walked(p, f, g, path, OrderOf(a), OpensOf(a), StmtTails(a))
  {
    assert f.order + [] == f.order;
    forall l | l in f.at ensures OldLabel(p, f, g, path, OpensOf(a), l) {
      if a.Jump? && a.kind == Goto && a.l == l {
        assert To(l, OpensOf(a)) == {a.id};
      } else {
        assert To(l, OpensOf(a)) == {};
      }
    }
  }

  /** A statement and the rest of its block. */
  lemma StatementThen(p: Block, f: Found, f1: Found, g: Found, path: Path, a: Stmt, t: Block)
    requires BlockAt(p, path).Some? && FoundOk(f) && !a.Label? && Distinct(Cons(a, t))
    requires Walked(p, f, f1, path, OrderOf(a), OpensOf(a), StmtTails(a))
    requires Walked(p, f1, g, path, Order(t), Opens(t), BlockTails(t))
    requires Deeper(f1, path, OrderOf(a))
    ensures Walked(p, f, g, path, OrderOf(a) + Order(t), OpensOf(a) + Opens(t), BlockTails(Cons(a, t)))
  {
    DeeperClosed(p, f1, path, OrderOf(a));
    StatementTails(a, t);
    WalkedThen(p, f, f1, g, path, OrderOf(a), Order(t), OpensOf(a), Opens(t), StmtTails(a), BlockTails(t),
        BlockTails(Cons(a, t)));
  }

  /** What is open from outside: nothing in a loop. */
  function Through(open: bool, x: set<(nat, nat)>): set<(nat, nat)> { if open then x else {} }

  predicate OpenAt(p: Block, path: Path, i: nat)
    requires BlockAt(p, path).Some? && i < Len(BlockAt(p, path).value) && NthStmt(BlockAt(p, path).value, i).Nest?
  {
    OpenTag(NthStmt(BlockAt(p, path).value, i).tag)
  }

  predicate RegionAt(p: Block, path: Path, i: nat, j: nat) {
    && BlockAt(p, path).Some? && i < Len(BlockAt(p, path).value) && NthStmt(BlockAt(p, path).value, i).Nest?
    && j < Count(NthStmt(BlockAt(p, path).value, i).rs)
  }

  /** The walk of a region, seen from the block around it. */
  lemma RegionWalked(p: Block, f: Found, g: Found, path: Path, i: nat, j: nat, b: Block)
    requires RegionAt(p, path, i, j) && BlockAt(p, path + [(i, j)]).Some? && Ready(f, path, i, j)
    requires Walked(p, f, g, path + [(i, j)], Order(b), Opens(b), BlockTails(b))
    ensures Walked(p, f, g, path, Order(b), Through(OpenAt(p, path, i), Opens(b)), BlockTails(b))
    ensures Deeper(g, path, Order(b)) && forall l :: l in Order(b) ==> InRegion(g, path, i, j, l)
  {
    var down := path + [(i, j)];
    assert Beyond(down, path, i, j);
    forall l | l in f.at ensures OldLabel(p, f, g, path, Through(OpenAt(p, path, i), Opens(b)), l) {
      assert OldLabel(p, f, g, down, Opens(b), l);
      OpenDown(p, f.at[l], path, i, j);
      ToUnion(l, {}, {});
    }
    forall l | l in Order(b) ensures NewLabel(g, path, BlockTails(b), l) && InRegion(g, path, i, j, l) {
      assert NewLabel(g, down, BlockTails(b), l);
      PathInside(g.at[l], path, i, j);
    }
    forall l | l in Order(b) ensures DeeperAt(g, path, l) { assert InRegion(g, path, i, j, l); }
  }

  predicate InRegion(g: Found, path: Path, i: nat, j: nat, l: nat) {
    l in g.at && |g.at[l]| > |path| && g.at[l][|path|] == (i, j)
  }

  lemma PathInside(q: Path, path: Path, i: nat, j: nat)
    requires |q| > |path| && q[..|path| + 1] == path + [(i, j)]
    ensures q[..|path|] == path && q[|path|] == (i, j)
  {
    assert q[|path|] == q[..|path| + 1][|path|];
    assert q[..|path|] == q[..|path| + 1][..|path|];
  }

  /** After a region nothing lies in the regions behind it. */
  lemma RegionReady(p: Block, f: Found, g: Found, path: Path, i: nat, j: nat, order: seq<nat>, x: set<(nat, nat)>,
      t: nat -> Option<Block>)
    requires BlockAt(p, path).Some? && Ready(f, path, i, j) && Walked(p, f, g, path, order, x, t)
    requires forall l :: l in order ==> InRegion(g, path, i, j, l)
    ensures Ready(g, path, i, j + 1)
  {
    forall l | l in g.at ensures !Beyond(g.at[l], path, i, j + 1) {
      if l in f.at { assert OldLabel(p, f, g, path, x, l); } else { assert l in order; }
    }
  }

  lemma RegionsThen(p: Block, f: Found, g1: Found, g: Found, path: Path, i: nat, rs: Regions)
    requires RegionAt(p, path, i, 0) && rs.More? && DistinctIn(rs) && FoundOk(f)
    requires Walked(p, f, g1, path, Order(rs.b), Through(OpenAt(p, path, i), Opens(rs.b)), BlockTails(rs.b))
    requires Walked(p, g1, g, path, OrderIn(rs.rest), Through(OpenAt(p, path, i), OpensIn(rs.rest)),
        RegionTails(rs.rest))
    requires Deeper(g1, path, Order(rs.b)) && Deeper(g, path, OrderIn(rs.rest))
    ensures Walked(p, f, g, path, OrderIn(rs), Through(OpenAt(p, path, i), OpensIn(rs)), RegionTails(rs))
    ensures Deeper(g, path, OrderIn(rs))
  {
    var x1, x2 := Through(OpenAt(p, path, i), Opens(rs.b)), Through(OpenAt(p, path, i), OpensIn(rs.rest));
    DeeperClosed(p, g1, path, Order(rs.b));
    RegionsTails(rs);
    forall l | l in OrderIn(rs) ensures DeeperAt(g, path, l) {
      if l in Order(rs.b) { assert DeeperAt(g1, path, l) && OldLabel(p, g1, g, path, x2, l); }
    }
    WalkedThen(p, f, g1, g, path, Order(rs.b), OrderIn(rs.rest), x1, x2, BlockTails(rs.b), RegionTails(rs.rest),
        RegionTails(rs));
    assert x1 + x2 == Through(OpenAt(p, path, i), OpensIn(rs));
  }

  // ----- the methods -----

  predicate Apart(order: seq<nat>, f: Found) { forall l :: l in order ==> l !in f.at }

  lemma ApartAfter(f: Found, g: Found, p: Block, path: Path, o1: seq<nat>, o2: seq<nat>, x: set<(nat, nat)>,
      t: nat -> Option<Block>)
    requires BlockAt(p, path).Some? && FoundOk(f) && Walked(p, f, g, path, o1, x, t) && Apart(o2, f) && forall l ::
        l in o2 ==> l !in o1
    ensures Apart(o2, g)
  {}

  lemma OrderSplit(a: Stmt, t: Block)
    requires Distinct(Cons(a, t))
    ensures Order(Cons(a, t)) == OrderOf(a) + Order(t) && Opens(Cons(a, t)) == OpensOf(a) + Opens(t)
    ensures forall l :: l in Order(t) ==> l !in OrderOf(a)
  {
    Unfold(a, t);
    OrderLabels(t);
    if a.Nest? { OrderLabelsIn(a.rs); }
  }

  /** A label is entered, and the walk goes on behind it. */
  lemma LabelReady(f: Found, path: Path, i: nat, l: nat, order: seq<nat>)
    requires Ready(f, path, i, 0) && l !in f.at && l !in order && Apart(order, f)
    ensures var g := Found(f.order + [l], f.at[l := path], f.gotos[l := {}]);
            Ready(g, path, i + 1, 0) && Apart(order, g)
  {
    var g := Found(f.order + [l], f.at[l := path], f.gotos[l := {}]);
    assert Elems(g.order) == Elems(f.order) + {l};
  }

  method WalkBlock(p: Block, s: Block, path: Path, i: nat, f: Found) returns (g: Found)
    requires BlockAt(p, path).Some? && i <= Len(BlockAt(p, path).value) && s == Drop(i, BlockAt(p, path).value)
    requires Ready(f, path, i, 0) && Distinct(s) && Apart(Order(s), f)
    ensures Walked(p, f, g, path, Order(s), Opens(s), BlockTails(s))
    decreases Size(s), 1
  {
    if s.Nil? {
      WalkedNothing(p, f, path, BlockTails(s));
      return f;
    }
    var Cons(a, t) := s;
    LenDrop(i, BlockAt(p, path).value);
    DropNth(i, BlockAt(p, path).value);
    OrderSplit(a, t);
    if a.Label? {
      LabelReady(f, path, i, a.l, Order(t));
      g := WalkBlock(p, t, path, i + 1, Found(f.order + [a.l], f.at[a.l := path], f.gotos[a.l := {}]));
      WalkedLabel(p, f, g, path, a.l, t);
    } else {
      var f1 := WalkStatement(p, a, path, i, f);
      ApartAfter(f, f1, p, path, OrderOf(a), Order(t), OpensOf(a), StmtTails(a));
      g := WalkBlock(p, t, path, i + 1, f1);
      StatementThen(p, f, f1, g, path, a, t);
    }
  }

  method WalkStatement(p: Block, a: Stmt, path: Path, i: nat, f: Found) returns (g: Found)
    requires BlockAt(p, path).Some? && i < Len(BlockAt(p, path).value) && a == NthStmt(BlockAt(p, path).value, i)
    requires !a.Label?
    requires Ready(f, path, i, 0) && DistinctOf(a) && Apart(OrderOf(a), f)
    ensures Walked(p, f, g, path, OrderOf(a), OpensOf(a), StmtTails(a)) && Ready(g, path, i + 1, 0)
    ensures Deeper(g, path, OrderOf(a))
    decreases SizeOf(a), 1
  {
    g := f;
    if a.Nest? {
      assert SizeOf(a) == 1 + SizeIn(a.rs);
      g := WalkRegions(p, a.rs, path, i, 0, f);
    } else {
      if a.Jump? && a.kind == Goto && a.l in f.at {
        var back := IsBackwardGoto(p, path, f.at[a.l]);
        if back { g := f.(gotos := f.gotos[a.l := f.gotos[a.l] + {a.id}]); }
      }
      JumpWalked(p, f, g, path, a);
    }
  }

  method WalkRegions(p: Block, rs: Regions, path: Path, i: nat, j: nat, f: Found) returns (g: Found)
    requires RegionAt(p, path, i, j) && rs == DropRegions(j, NthStmt(BlockAt(p, path).value, i).rs)
    requires Ready(f, path, i, j) && DistinctIn(rs) && Apart(OrderIn(rs), f)
    ensures Walked(p, f, g, path, OrderIn(rs), Through(OpenAt(p, path, i), OpensIn(rs)), RegionTails(rs))
    ensures Ready(g, path, i + 1, 0)
    ensures Deeper(g, path, OrderIn(rs))
    decreases SizeIn(rs), 0
  {
    ghost var a := NthStmt(BlockAt(p, path).value, i);
    Down(p, path, i, j);
    DropRegionsNth(j, a.rs);
    InnerReady(f, path, i, j);
    g := WalkBlock(p, rs.b, path + [(i, j)], 0, f);
    RegionWalked(p, f, g, path, i, j, rs.b);
    RegionReady(p, f, g, path, i, j, Order(rs.b), Through(OpenAt(p, path, i), Opens(rs.b)), BlockTails(rs.b));
    if rs.One? {
      LastReady(p, f, g, path, i, j, Order(rs.b), Through(OpenAt(p, path, i), Opens(rs.b)), BlockTails(rs.b));
      OneRegion(p, f, g, path, i, rs);
    } else {
      OrderLabels(rs.b);
      OrderLabelsIn(rs.rest);
      ghost var g1 := g;
      ApartAfter(f, g1, p, path, Order(rs.b), OrderIn(rs.rest), Through(OpenAt(p, path, i), Opens(rs.b)),
          BlockTails(rs.b));
      g := WalkRegions(p, rs.rest, path, i, j + 1, g);
      RegionsThen(p, f, g1, g, path, i, rs);
    }
  }

  lemma InnerReady(f: Found, path: Path, i: nat, j: nat)
    requires Ready(f, path, i, j)
    ensures Ready(f, path + [(i, j)], 0, 0)
  {
    var down := path + [(i, j)];
    forall l | l in f.at ensures !Beyond(f.at[l], down, 0, 0) {
      if |f.at[l]| > |down| && f.at[l][..|down|] == down { PathInside(f.at[l], path, i, j); }
    }
  }

  /** All regions of statement `i` are done. */
  lemma LastReady(p: Block, f: Found, g: Found, path: Path, i: nat, j: nat, order: seq<nat>, x: set<(nat, nat)>,
      t: nat -> Option<Block>)
    requires BlockAt(p, path).Some? && Ready(f, path, i, j) && Walked(p, f, g, path, order, x, t)
    requires forall l :: l in order ==> InRegion(g, path, i, j, l)
    ensures Ready(g, path, i + 1, 0)
  {
    forall l | l in g.at ensures !Beyond(g.at[l], path, i + 1, 0) {
      if l in f.at { assert OldLabel(p, f, g, path, x, l); } else { assert l in order; }
    }
  }

  lemma OneRegion(p: Block, f: Found, g: Found, path: Path, i: nat, rs: Regions)
    requires RegionAt(p, path, i, 0) && rs.One?
    requires Walked(p, f, g, path, Order(rs.b), Through(OpenAt(p, path, i), Opens(rs.b)), BlockTails(rs.b))
    ensures Walked(p, f, g, path, OrderIn(rs), Through(OpenAt(p, path, i), OpensIn(rs)), RegionTails(rs))
  {
    forall l | l in Order(rs.b) ensures NewLabel(g, path, RegionTails(rs),
        l) { assert NewLabel(g, path, BlockTails(rs.b), l); }
  }

  /** All labels in syntactic order, each with the gotos that jump back to it. */
  method CollectBackwardGotos(p: Block) returns (labels: seq<nat>, gotos: map<nat, set<nat>>)
    requires Distinct(p)
    ensures labels == Order(p) && forall l :: l in labels ==> l in gotos && gotos[l] == Backward(p, l)
  {
    assert Drop(0, p) == p;
    var f := WalkBlock(p, p, [], 0, Found([], map[], map[]));
    labels, gotos := f.order, f.gotos;
    assert [] + Order(p) == Order(p);
    forall l | l in labels ensures l in gotos && gotos[l] == Backward(p, l) {
      assert NewLabel(f, [], BlockTails(p), l);
    }
  }
}
