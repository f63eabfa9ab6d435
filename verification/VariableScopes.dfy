/** Moving variable declarations next to their uses. */
module VariableScopes {
  import opened Wrappers

  /** A region: from the function body inwards, the number of an operation in its block and the number of
      one of its regions. */
  type Region = seq<(nat, nat)>

  /** An operation: its region and its number in the block. */
  datatype Loc = Loc(region: Region, index: nat)

  /** The nesting level of an operation is the depth of its region. */
  function Level(u: Loc): nat { |u.region| }

  /** The operation of the enclosing region at level `n` that is or contains `u`. */
  function Around(u: Loc, n: nat): (a: Loc)
    requires n <= Level(u)
    ensures Level(a) == n && a.region <= u.region
  {
    if n == Level(u) then u else Loc(u.region[..n], u.region[n].0)
  }

  function Parent(r: Region): Region
    requires r != []
  {
    r[..|r| - 1]
  }

  // ----- common regions -----

  /** Region `d` is or contains region `a`. */
  predicate Encloses(d: Region, a: Region) { |d| <= |a| && forall i :: 0 <= i < |d| ==> d[i] == a[i] }

  predicate IsShared(a: Region, b: Region, n: nat) {
    && n <= |a| && n <= |b| && (forall i :: 0 <= i < n ==> a[i] == b[i])
    && (n == |a| || n == |b| || a[n] != b[n])
  }

  /** The level of the innermost region that encloses both. */
  function Shared(a: Region, b: Region): (n: nat)
    ensures IsShared(a, b, n)
  {
    if a == [] || b == [] || a[0] != b[0] then 0
    else
      var n := Shared(a[1..], b[1..]);
      assert forall i :: 0 < i < |a| ==> a[i] == a[1..][i - 1];
      assert forall i :: 0 < i < |b| ==> b[i] == b[1..][i - 1];
      n + 1
  }

  /** No smaller region encloses both. */
  lemma Innermost(a: Region, b: Region, d: Region)
    requires Encloses(d, a) && Encloses(d, b)
    ensures |d| <= Shared(a, b) && Encloses(d, a[..Shared(a, b)])
  {}

  lemma SharedPrefix(a: Region, b: Region, k: nat)
    requires k <= |a| && k <= |b|
    ensures a[..k] == b[..k] <==> k <= Shared(a, b)
  {
    var n := Shared(a, b);
    if k <= n {
      assert a[..k] == b[..k];
    } else {
      assert a[..k][n] == a[n] && b[..k][n] == b[n];
    }
  }

  /** Merges the location of a variable with one more use: climbs from both to their common region, then
      climbs as many levels from the operation of the current location. */
  method UpdateVariableLocation(cur: Loc, use: Loc) returns (r: Loc)
    ensures r == Around(cur, Shared(cur.region, use.region))
  {
    var currentRegion, newRegion := cur.region, use.region;
    var currentLevel, newLevel := Level(cur), Level(use);
    ghost var n := Shared(cur.region, use.region);
    while currentLevel > newLevel
      invariant newLevel == |use.region| && n <= currentLevel <= Level(cur)
      invariant currentRegion == cur.region[..currentLevel]
      decreases currentLevel
    {
      currentRegion, currentLevel := Parent(currentRegion), currentLevel - 1;
    }
    while newLevel > currentLevel
      invariant n <= currentLevel <= newLevel <= |use.region| && newRegion == use.region[..newLevel]
      decreases newLevel
    {
      newRegion, newLevel := Parent(newRegion), newLevel - 1;
    }
    while currentRegion != newRegion
      invariant n <= currentLevel <= Level(cur) && currentLevel <= |use.region|
      invariant currentRegion == cur.region[..currentLevel] && newRegion == use.region[..currentLevel]
      decreases currentLevel
    {
      SharedPrefix(cur.region, use.region, currentLevel);
      currentRegion, newRegion, currentLevel := Parent(currentRegion), Parent(newRegion), currentLevel - 1;
    }
    SharedPrefix(cur.region, use.region, currentLevel);
    r := cur;
    var i := 0;
    while i < Level(cur) - currentLevel
      invariant 0 <= i <= Level(cur) - currentLevel && r == Around(cur, Level(cur) - i)
    {
      r := Loc(Parent(r.region), r.region[Level(r) - 1].0);
      i := i + 1;
    }
  }

  // ----- all uses of a variable -----

  /** Where the declaration goes: the first use, or the statement around it if it is an expression,
      merged with all others. */
  ghost predicate Merged(first: Loc, uses: seq<Loc>, r: Loc)
  {
    && Level(r) <= Level(first) && r == Around(first, Level(r))
    && EnclosesAll(r.region, uses)
    && forall d: Region :: Encloses(d, first.region) && EnclosesAll(d, uses) ==> Encloses(d, r.region)
  }

  predicate EnclosesAll(d: Region, uses: seq<Loc>) { forall i :: 0 <= i < |uses| ==> Encloses(d, uses[i].region) }

  /** Visits the uses in walk order. */
  method FindLocation(first: Loc, inExpression: bool, others: seq<Loc>) returns (r: Loc)
    requires inExpression ==> first.region != []
    ensures var start := if inExpression then Around(first, Level(first) - 1) else first;
            Merged(start, others, r)
  {
    ghost var start := if inExpression then Around(first, Level(first) - 1) else first;
    r := if inExpression then Loc(Parent(first.region), first.region[Level(first) - 1].0) else first;
    var i := 0;
    while i < |others|
      invariant 0 <= i <= |others| && Merged(start, others[..i], r)
    {
      ghost var was := r;
      r := UpdateVariableLocation(r, others[i]);
      MergedStep(start, others, i, was, r);
      i := i + 1;
    }
    assert others[..|others|] == others;
  }

  lemma MergedStep(first: Loc, uses: seq<Loc>, i: nat, was: Loc, r: Loc)
    requires i < |uses| && Merged(first, uses[..i], was) && r == Around(was, Shared(was.region, uses[i].region))
    ensures Merged(first, uses[..i + 1], r)
  {
    var next := uses[..i + 1];
    assert forall j :: 0 <= j < i ==> uses[..i][j] == next[j];
    forall j | 0 <= j < |next| ensures Encloses(r.region, next[j].region) {
      if j < i { assert Encloses(was.region, uses[..i][j].region); }
    }
    forall d: Region | Encloses(d, first.region) && EnclosesAll(d, next)
      ensures Encloses(d, r.region)
    {
      assert EnclosesAll(d, uses[..i]) && Encloses(d, next[i].region);
      Innermost(was.region, uses[i].region, d);
    }
  }

  // ----- walk order -----

  /** The walk visits `a` no later than `b`: at the innermost region they share, the operation around `a`
      does not come after the one around `b`. */
  predicate NotAfter(a: Loc, b: Loc) {
    var n := Shared(a.region, b.region);
    Around(a, n).index <= Around(b, n).index
  }

  /** The operation `u` stands, in region `r`, at or behind number `index` of its block. */
  predicate AtOrBehind(u: Loc, r: Region, index: nat) { Encloses(r, u.region) && index <= Around(u, |r|).index }

  lemma EarlierAround(a: Loc, b: Loc, r: Region)
    requires NotAfter(a, b) && Encloses(r, a.region) && Encloses(r, b.region)
    ensures Around(a, |r|).index <= Around(b, |r|).index
  {
    Innermost(a.region, b.region, r);
    if |r| < Shared(a.region, b.region) { assert a.region[|r|] == b.region[|r|]; }
  }

  /** The new place is in the lowest region that contains all uses, right before the operation there that
      contains the first use; so it comes before every use, and what it precedes contains a use. */
  lemma DeclarationDominates(first: Loc, inExpression: bool, others: seq<Loc>, r: Loc)
    requires inExpression ==> first.region != []
    requires Merged(if inExpression then Around(first, Level(first) - 1) else first, others, r)
    requires forall i :: 0 <= i < |others| ==> NotAfter(first, others[i])
    ensures Level(r) <= Level(first) && Around(first, Level(r)) == r && AtOrBehind(first, r.region, r.index)
    ensures forall i :: 0 <= i < |others| ==> AtOrBehind(others[i], r.region, r.index)
  {
    forall i | 0 <= i < |others| ensures AtOrBehind(others[i], r.region, r.index) {
      EarlierAround(first, others[i], r.region);
    }
  }

  // ----- the walk -----

  /** Operations with their regions; a region is a list of operations. */
  datatype Ops = NoOps | Ops(regions: Regions, rest: Ops)
  datatype Regions = NoRegions | Regions(ops: Ops, rest: Regions)

  /** The walk of the block of region `r` from operation `i` on: nested operations first. */
  function Walk(b: Ops, r: Region, i: nat): seq<Loc>
    decreases b
  {
    match b case NoOps => [] case Ops(rs, rest) => WalkIn(rs, r, i, 0) + [Loc(r, i)] + Walk(rest, r, i + 1)
  }

  function WalkIn(rs: Regions, r: Region, i: nat, j: nat): seq<Loc>
    decreases rs
  {
    match rs case NoRegions => [] case Regions(b, rest) => Walk(b, r + [(i, j)], 0) + WalkIn(rest, r, i, j + 1)
  }

  /** The operation is in region `r`, in or behind operation `i`. */
  predicate From(u: Loc, r: Region, i: nat) { Encloses(r, u.region) && Around(u, |r|).index >= i }

  /** The operation is in region number `j` or later of operation `i`. */
  predicate FromRegion(u: Loc, r: Region, i: nat, j: nat) {
    Encloses(r, u.region) && |u.region| > |r| && u.region[|r|].0 == i && u.region[|r|].1 >= j
  }

  lemma {:induction false} WalkFrom(b: Ops, r: Region, i: nat)
    ensures forall u :: u in Walk(b, r, i) ==> From(u, r, i)
    decreases b
  {
    if b.Ops? {
      WalkInFrom(b.regions, r, i, 0);
      WalkFrom(b.rest, r, i + 1);
    }
  }

  lemma {:induction false} WalkInFrom(rs: Regions, r: Region, i: nat, j: nat)
    ensures forall u :: u in WalkIn(rs, r, i, j) ==> FromRegion(u, r, i, j)
    decreases rs
  {
    if rs.Regions? {
      WalkFrom(rs.ops, r + [(i, j)], 0);
      WalkInFrom(rs.rest, r, i, j + 1);
      forall u | u in Walk(rs.ops, r + [(i, j)], 0) ensures FromRegion(u, r, i, j) {
        assert From(u, r + [(i, j)], 0);
        assert (r + [(i, j)])[|r|] == u.region[|r|];
        assert forall k :: 0 <= k < |r| ==> (r + [(i, j)])[k] == r[k];
      }
    }
  }

  /** Two operations that part in region `r`. */
  lemma Parting(a: Loc, b: Loc, r: Region)
    requires Encloses(r, a.region) && Encloses(r, b.region) && Around(a, |r|).index <= Around(b, |r|).index
    requires |a.region| == |r| || |b.region| == |r| || a.region[|r|] != b.region[|r|]
    ensures NotAfter(a, b)
  {
    Innermost(a.region, b.region, r);
    assert Shared(a.region, b.region) == |r|;
  }

  ghost predicate InOrder(w: seq<Loc>) { forall x, y :: 0 <= x < y < |w| ==> NotAfter(w[x], w[y]) }

  lemma OrderApp(v: seq<Loc>, w: seq<Loc>)
    requires InOrder(v) && InOrder(w) && forall x, y :: x in v && y in w ==> NotAfter(x, y)
    ensures InOrder(v + w)
  {
    forall x, y | 0 <= x < y < |v + w| ensures NotAfter((v + w)[x], (v + w)[y]) {
      if x < |v| <= y { assert v[x] in v && w[y - |v|] in w; }
    }
  }

  /** An operation visited earlier is not after one visited later. */
  lemma {:induction false} WalkInOrder(b: Ops, r: Region, i: nat)
    ensures InOrder(Walk(b, r, i))
    decreases b
  {
    if b.Ops? {
      var v, m, w := WalkIn(b.regions, r, i, 0), [Loc(r, i)], Walk(b.rest, r, i + 1);
      WalkInInOrder(b.regions, r, i, 0);
      WalkInOrder(b.rest, r, i + 1);
      WalkInFrom(b.regions, r, i, 0);
      WalkFrom(b.rest, r, i + 1);
      forall x, y | x in v && y in m ensures NotAfter(x, y) { Parting(x, y, r); }
      OrderApp(v, m);
      forall x, y | x in v + m && y in w ensures NotAfter(x, y) { assert From(y, r, i + 1); Parting(x, y, r); }
      OrderApp(v + m, w);
    }
  }

  lemma {:induction false} WalkInInOrder(rs: Regions, r: Region, i: nat, j: nat)
    ensures InOrder(WalkIn(rs, r, i, j))
    decreases rs
  {
    if rs.Regions? {
      var down := r + [(i, j)];
      var v, w := Walk(rs.ops, down, 0), WalkIn(rs.rest, r, i, j + 1);
      WalkInOrder(rs.ops, down, 0);
      WalkInInOrder(rs.rest, r, i, j + 1);
      WalkFrom(rs.ops, down, 0);
      WalkInFrom(rs.rest, r, i, j + 1);
      forall x, y | x in v && y in w ensures NotAfter(x, y) {
        assert From(x, down, 0) && down[|r|] == x.region[|r|];
        assert forall k :: 0 <= k < |r| ==> down[k] == r[k];
        Parting(x, y, r);
      }
      OrderApp(v, w);
    }
  }

  /** The uses are operations that the walk visits no earlier than the first one. */
  predicate Visited(w: seq<Loc>, first: nat, later: seq<nat>, others: seq<Loc>) {
    first < |w| && |others| == |later| && forall i ::
        0 <= i < |later| ==> first <= later[i] < |w| && others[i] == w[later[i]]
  }

  lemma VisitedInOrder(b: Ops, first: nat, later: seq<nat>, others: seq<Loc>)
    requires Visited(Walk(b, [], 0), first, later, others)
    ensures forall i :: 0 <= i < |others| ==> NotAfter(Walk(b, [], 0)[first], others[i])
  {
    var w := Walk(b, [], 0);
    WalkInOrder(b, [], 0);
    forall i | 0 <= i < |others| ensures NotAfter(w[first], others[i]) {
      if later[i] > first { assert NotAfter(w[first], w[later[i]]); }
    }
  }

  /** For uses visited by the walk, the declaration precedes them all. */
  lemma DeclarationPrecedes(b: Ops, first: nat, u: Loc, inExpression: bool, later: seq<nat>, others: seq<Loc>, r: Loc)
    requires Visited(Walk(b, [], 0), first, later, others) && u == Walk(b, [], 0)[first]
    requires (inExpression ==> u.region != [])
    requires Merged(if inExpression then Around(u, Level(u) - 1) else u, others, r)
    ensures AtOrBehind(u, r.region, r.index)
    ensures forall i :: 0 <= i < |others| ==> AtOrBehind(others[i], r.region, r.index)
  {
    VisitedInOrder(b, first, later, others);
    DeclarationDominates(u, inExpression, others, r);
  }

  // ----- what is around a use -----

  /** The regions of the operation at `path` and `index` in the block `b`, whose operations are numbered from
      `i` on. */
  function RegionsOf(b: Ops, i: nat, path: Region, index: nat): Option<Regions>
    decreases b
  {
    if b.NoOps? then None
    else if path == [] then if index == i then Some(b.regions) else RegionsOf(b.rest, i + 1, path, index)
    else if path[0].0 == i then RegionsIn(b.regions, 0, path[0].1, path[1..], index)
    else RegionsOf(b.rest, i + 1, path, index)
  }

  /** The same in region number `k` of a list numbered from `j` on. */
  function RegionsIn(rs: Regions, j: nat, k: nat, path: Region, index: nat): Option<Regions>
    decreases rs
  {
    if rs.NoRegions? then None
    else if j == k then RegionsOf(rs.ops, 0, path, index) else RegionsIn(rs.rest, j + 1, k, path, index)
  }

  /** The operations around one that the walk visits have regions. */
  lemma {:induction false} Surrounds(b: Ops, r: Region, i: nat, u: Loc, n: nat)
    requires u in Walk(b, r, i) && |r| <= n < Level(u)
    ensures var f := RegionsOf(b, i, u.region[|r|..n], u.region[n].0); f.Some? && f.value.Regions?
    decreases b
  {
    WalkFrom(b, r, i);
    WalkInFrom(b.regions, r, i, 0);
    WalkFrom(b.rest, r, i + 1);
    assert From(u, r, i);
    if u in Walk(b.rest, r, i + 1) {
      assert From(u, r, i + 1);
      Surrounds(b.rest, r, i + 1, u, n);
    } else if n > |r| {
      SurroundsIn(b.regions, r, i, 0, u, n);
      assert u.region[|r|..n][0] == u.region[|r|] && u.region[|r|..n][1..] == u.region[|r| + 1..n];
    }
  }

  lemma {:induction false} SurroundsIn(rs: Regions, r: Region, i: nat, j: nat, u: Loc, n: nat)
    requires u in WalkIn(rs, r, i, j) && |r| < n < Level(u)
    ensures var f := RegionsIn(rs, j, u.region[|r|].1, u.region[|r| + 1..n], u.region[n].0); f.Some? && f.value.Regions?
    decreases rs
  {
    var down := r + [(i, j)];
    WalkInFrom(rs.rest, r, i, j + 1);
    if u in WalkIn(rs.rest, r, i, j + 1) {
      assert FromRegion(u, r, i, j + 1);
      SurroundsIn(rs.rest, r, i, j + 1, u, n);
    } else {
      WalkFrom(rs.ops, down, 0);
      assert From(u, down, 0) && down[|r|] == u.region[|r|];
      Surrounds(rs.ops, down, 0, u, n);
    }
  }

  /** A variable without initializer has no regions, and no operands, so that it is not the first use of another
      variable: the place of a variable is never that of a variable that moves. */
  lemma TargetStays(b: Ops, first: Loc, inExpression: bool, others: seq<Loc>, r: Loc, variable: Loc)
    requires first in Walk(b, [], 0) && first != variable
    requires RegionsOf(b, 0, variable.region, variable.index) == Some(NoRegions)
    requires inExpression ==> first.region != []
    requires Merged(if inExpression then Around(first, Level(first) - 1) else first, others, r)
    ensures r != variable
  {
    var n := Level(r);
    assert r == Around(first, n);
    if n < Level(first) {
      Surrounds(b, [], 0, first, n);
      assert first.region[0..n] == first.region[..n];
    }
  }
}
