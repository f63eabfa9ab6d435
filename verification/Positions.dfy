/** Positions in a program, fallthrough targets and the elimination of trivial jumps. */
module Positions {
  import opened Wrappers
  import opened Clift
  import opened Static
  import opened Rules
  import opened Conditions
  import opened Sites
  import opened Places
  import opened Preservation
  import opened WellFormed
  import opened Branches

  /** One step of a path: the statement number in a block and the region number in it. */
  type Path = seq<(nat, nat)>

  /** A position before the statement number `index` of the block at `path`, or at its end. */
  datatype Position = Position(path: Path, index: nat)

  function Up(path: Path): Path
    requires path != []
  {
    path[..|path| - 1]
  }

  function Last(path: Path): (nat, nat)
    requires path != []
  {
    path[|path| - 1]
  }

  function BlockAt(p: Block, path: Path): Option<Block>
    decreases |path|
  {
    if path == [] then Some(p)
    else
      match BlockAt(p, Up(path))
      case None => None
      case Some(b) =>
        var (i, j) := Last(path);
        if i < Len(b) && NthStmt(b, i).Nest? && j < Count(NthStmt(b, i).rs) then Some(Nth(NthStmt(b, i).rs, j))
        else None
  }

  predicate Valid(p: Block, pos: Position) {
    BlockAt(p, pos.path).Some? && pos.index <= Len(BlockAt(p, pos.path).value)
  }

  /** The statement at a position. */
  function StmtAt(p: Block, pos: Position): Option<Stmt> {
    if BlockAt(p, pos.path).Some? && pos.index < Len(BlockAt(p, pos.path).value)
    then Some(NthStmt(BlockAt(p, pos.path).value, pos.index)) else None
  }

  /** The operation around a block that is not the function body. */
  function Parent(p: Block, path: Path): Stmt
    requires path != [] && BlockAt(p, path).Some?
  {
    NthStmt(BlockAt(p, Up(path)).value, Last(path).0)
  }

  /** What follows the block at `path`. */
  function Around(p: Block, path: Path): Block
    requires BlockAt(p, path).Some?
    decreases |path|
  {
    if path == [] then Nil
    else Inner(Parent(p, path), App(Drop(Last(path).0 + 1, BlockAt(p, Up(path)).value), Around(p, Up(path))))
  }

  /** The flat continuation at a position. */
  function Cont(p: Block, pos: Position): Block
    requires Valid(p, pos)
  {
    App(Drop(pos.index, BlockAt(p, pos.path).value), Around(p, pos.path))
  }

  // ----- fallthrough -----

  predicate AtLabel(p: Block, pos: Position) { StmtAt(p, pos).Some? && StmtAt(p, pos).value.Label? }

  /** The position is at the end of a region of a branch. */
  predicate LeavesBranch(p: Block, pos: Position)
    requires Valid(p, pos)
  {
    pos.path != [] && pos.index == Len(BlockAt(p, pos.path).value) && Parent(p, pos.path).tag.Branch?
  }

  /** Where control falls through to: past labels and out of branches. */
  function FallTarget(p: Block, pos: Position): (out: Position)
    requires Valid(p, pos)
    ensures Valid(p, out)
    decreases |pos.path|, if StmtAt(p, pos).Some? then Len(BlockAt(p, pos.path).value) - pos.index else 0
  {
    if AtLabel(p, pos) then FallTarget(p, pos.(index := pos.index + 1))
    else if LeavesBranch(p, pos) then FallTarget(p, Position(Up(pos.path), Last(pos.path).0 + 1))
    else pos
  }

  /** `skipLabels` and the climb out of branches, as loops. */
  method GetFallthroughTarget(p: Block, start: Position) returns (pos: Position)
    requires Valid(p, start)
    ensures Valid(p, pos) && pos == FallTarget(p, start)
    ensures !AtLabel(p, pos) && !LeavesBranch(p, pos)
  {
    pos := start;
    while true
      invariant Valid(p, pos) && FallTarget(p, pos) == FallTarget(p, start)
      decreases |pos.path|, Len(BlockAt(p, pos.path).value) - pos.index
    {
      ghost var path := pos.path;
      while AtLabel(p, pos)
        invariant Valid(p, pos) && FallTarget(p, pos) == FallTarget(p, start) && pos.path == path
        decreases Len(BlockAt(p, pos.path).value) - pos.index
      {
        pos := pos.(index := pos.index + 1);
      }
      if pos.index != Len(BlockAt(p, pos.path).value) { break; }
      if pos.path == [] { break; }
      if !Parent(p, pos.path).tag.Branch? { break; }
      pos := Position(Up(pos.path), Last(pos.path).0 + 1);
    }
  }

  lemma {:induction false} DropNth(n: nat, b: Block)
    requires n < Len(b)
    ensures Drop(n, b) == Cons(NthStmt(b, n), Drop(n + 1, b))
  {
    if n > 0 { DropNth(n - 1, b.tl); }
  }

  lemma {:induction false} DropEnd(b: Block)
    ensures Drop(Len(b), b) == Nil
  {
    if b.Cons? { DropEnd(b.tl); }
  }

  /** Falling through shows nothing: both positions have the same continuation after their labels. */
  lemma {:induction false} FallSame(p: Block, pos: Position)
    requires Valid(p, pos)
    ensures SkipLabels(Cont(p, FallTarget(p, pos))) == SkipLabels(Cont(p, pos))
    decreases |pos.path|, if StmtAt(p, pos).Some? then Len(BlockAt(p, pos.path).value) - pos.index else 0
  {
    if AtLabel(p, pos) {
      DropNth(pos.index, BlockAt(p, pos.path).value);
      FallSame(p, pos.(index := pos.index + 1));
    } else if LeavesBranch(p, pos) {
      DropEnd(BlockAt(p, pos.path).value);
      FallSame(p, Position(Up(pos.path), Last(pos.path).0 + 1));
    }
  }

  // ----- where labels are -----

  /** The position a label stands for: behind its assignment, behind the loop it breaks, or at the end
      of the body of the loop it continues; `s` is the block at `path` from statement `i` on. */
  function PlaceOf(l: nat, s: Block, path: Path, i: nat): Option<Position> {
    match s
    case Nil => None
    case Cons(a, t) =>
      if a == Label(l) then Some(Position(path, i + 1))
      else if a.Nest? then
        if BreakLabel(a.tag) == Some(l) then Some(Position(path, i + 1))
        else if ContinueLabel(a.tag) == Some(l) then Some(Position(path + [(i, 0)], Len(Nth(a.rs, 0))))
        else
          var f := PlaceIn(l, a.rs, path, i, 0);
          if f.Some? then f else PlaceOf(l, t, path, i + 1)
      else PlaceOf(l, t, path, i + 1)
  }

  function PlaceIn(l: nat, rs: Regions, path: Path, i: nat, j: nat): Option<Position> {
    match rs
    case One(b) => PlaceOf(l, b, path + [(i, j)], 0)
    case More(b, r) =>
      var f := PlaceOf(l, b, path + [(i, j)], 0);
      if f.Some? then f else PlaceIn(l, r, path, i, j + 1)
  }

  function DropRegions(j: nat, rs: Regions): Regions
    requires j < Count(rs)
  {
    if j == 0 then rs else DropRegions(j - 1, rs.rest)
  }

  lemma {:induction false} DropRegionsNth(j: nat, rs: Regions)
    requires j < Count(rs)
    ensures DropRegions(j, rs).b == Nth(rs, j)
    ensures DropRegions(j, rs).More? <==> j + 1 < Count(rs)
    ensures DropRegions(j, rs).More? ==> DropRegions(j, rs).rest == DropRegions(j + 1, rs)
  {
    if j > 0 { DropRegionsNth(j - 1, rs.rest); }
  }

  /** The path one region down. */
  lemma Down(p: Block, path: Path, i: nat, j: nat)
    requires BlockAt(p, path).Some? && i < Len(BlockAt(p, path).value)
    requires NthStmt(BlockAt(p, path).value, i).Nest? && j < Count(NthStmt(BlockAt(p, path).value, i).rs)
    ensures var a := NthStmt(BlockAt(p, path).value, i);
            && BlockAt(p, path + [(i, j)]) == Some(Nth(a.rs, j))
            && Around(p, path + [(i, j)]) == Inner(a, App(Drop(i + 1, BlockAt(p, path).value), Around(p, path)))
  {
    var down := path + [(i, j)];
    assert Up(down) == path && Last(down) == (i, j);
  }

  /** The place of a label and the continuation found at it agree. */
  ghost predicate Agree(p: Block, f: Option<Block>, g: Option<Position>) {
    && (f.Some? <==> g.Some?)
    && (f.Some? ==> Valid(p, g.value) && SkipLabels(Cont(p, g.value)) == SkipLabels(f.value))
  }

  lemma {:induction false} PlaceSound(p: Block, l: nat, path: Path, i: nat)
    requires BlockAt(p, path).Some? && i <= Len(BlockAt(p, path).value)
    ensures var s := Drop(i, BlockAt(p, path).value);
            Agree(p, Find(l, s, Around(p, path)), PlaceOf(l, s, path, i))
    decreases Size(Drop(i, BlockAt(p, path).value))
  {
    var b := BlockAt(p, path).value;
    if i == Len(b) {
      DropEnd(b);
    } else {
      DropNth(i, b);
      var a, k := NthStmt(b, i), Around(p, path);
      assert Size(Drop(i, b)) == 1 + SizeOf(a) + Size(Drop(i + 1, b));
      PlaceSound(p, l, path, i + 1);
      if a.Nest? {
        PlaceSoundIn(p, l, path, i, 0);
        LoopPlaces(p, path, i);
      } else {
        PlainPlace(p, path, i);
      }
      PlaceStep(p, l, a, Drop(i + 1, b), k, path, i);
    }
  }

  /** The lookups go through the first statement in the same way. */
  lemma PlaceStep(p: Block, l: nat, a: Stmt, t: Block, k: Block, path: Path, i: nat)
    requires Agree(p, Find(l, t, k), PlaceOf(l, t, path, i + 1))
    requires a.Label? ==> Agree(p, Some(App(Cons(a, t), k)), Some(Position(path, i + 1)))
    requires a.Nest? ==>
               && Agree(p, FindIn(l, a.rs, Inner(a, App(t, k))), PlaceIn(l, a.rs, path, i, 0))
               && Agree(p, Some(App(t, k)), Some(Position(path, i + 1)))
               && Agree(p, Some(Inner(a, App(t, k))), Some(Position(path + [(i, 0)], Len(Nth(a.rs, 0)))))
    ensures Agree(p, Find(l, Cons(a, t), k), PlaceOf(l, Cons(a, t), path, i))
  {}

  lemma PlainPlace(p: Block, path: Path, i: nat)
    requires BlockAt(p, path).Some? && i < Len(BlockAt(p, path).value)
    ensures var b := BlockAt(p, path).value;
            NthStmt(b, i).Label? ==> Agree(p, Some(App(Drop(i, b), Around(p, path))), Some(Position(path, i + 1)))
  {
    DropNth(i, BlockAt(p, path).value);
  }

  /** The positions behind a statement and at the end of its first region. */
  lemma LoopPlaces(p: Block, path: Path, i: nat)
    requires BlockAt(p, path).Some? && i < Len(BlockAt(p, path).value) && NthStmt(BlockAt(p, path).value, i).Nest?
    ensures var b := BlockAt(p, path).value;
            var a, k := NthStmt(b, i), App(Drop(i + 1, b), Around(p, path));
            && Agree(p, Some(k), Some(Position(path, i + 1)))
            && Agree(p, Some(Inner(a, k)), Some(Position(path + [(i, 0)], Len(Nth(a.rs, 0)))))
  {
    Down(p, path, i, 0);
    DropEnd(Nth(NthStmt(BlockAt(p, path).value, i).rs, 0));
  }

  lemma {:induction false} PlaceSoundIn(p: Block, l: nat, path: Path, i: nat, j: nat)
    requires BlockAt(p, path).Some? && i < Len(BlockAt(p, path).value)
    requires NthStmt(BlockAt(p, path).value, i).Nest? && j < Count(NthStmt(BlockAt(p, path).value, i).rs)
    ensures var a := NthStmt(BlockAt(p, path).value, i);
            var k := Inner(a, App(Drop(i + 1, BlockAt(p, path).value), Around(p, path)));
            Agree(p, FindIn(l, DropRegions(j, a.rs), k), PlaceIn(l, DropRegions(j, a.rs), path, i, j))
    decreases SizeIn(DropRegions(j, NthStmt(BlockAt(p, path).value, i).rs))
  {
    var a := NthStmt(BlockAt(p, path).value, i);
    DropRegionsNth(j, a.rs);
    Down(p, path, i, j);
    PlaceSound(p, l, path + [(i, j)], 0);
    if j + 1 < Count(a.rs) { PlaceSoundIn(p, l, path, i, j + 1); }
  }

  // ----- trivial jumps -----

  /** Falling through from behind the jump leads where the jump leads. */
  ghost predicate Trivial(p: Block, pos: Position)
    requires StmtAt(p, pos).Some? && StmtAt(p, pos).value.Jump?
  {
    var l := StmtAt(p, pos).value.l;
    var place := PlaceOf(l, p, [], 0);
    place.Some? && Valid(p, place.value) && FallTarget(p, place.value) == FallTarget(p, pos.(index := pos.index + 1))
  }

  /** A jump with one of the given names stands at the position. */
  predicate JumpAt(p: Block, pos: Position, names: set<nat>) {
    StmtAt(p, pos).Some? && StmtAt(p, pos).value.Jump? && StmtAt(p, pos).value.id in names
  }

  /** All jumps named in `names` are trivial. */
  ghost predicate AllTrivial(p: Block, names: set<nat>) {
    forall pos: Position :: JumpAt(p, pos, names) ==> Trivial(p, pos)
  }

  function EraseAll(names: set<nat>): Rule { Jumps(map id | id in names :: Erase) }

  lemma TrivialSane(p: Block, names: set<nat>, pos: Position)
    requires AllTrivial(p, names) && Valid(p, pos) && StmtAt(p, pos).Some? && StmtAt(p, pos).value.Jump?
    requires StmtAt(p, pos).value.l in Labels(p)
    ensures SaneJump(EraseAll(names), p, StmtAt(p, pos).value, Cont(p, pos.(index := pos.index + 1)))
  {
    var a := StmtAt(p, pos).value;
    if a.id in names {
      assert JumpAt(p, pos, names);
      assert Trivial(p, pos);
      FallSame(p, pos.(index := pos.index + 1));
      var place := PlaceOf(a.l, p, [], 0).value;
      FallSame(p, place);
      assert Drop(0, p) == p;
      PlaceSound(p, a.l, [], 0);
      FindLabel(a.l, p, Nil);
    }
  }

  lemma {:induction false} TrivialAll(p: Block, names: set<nat>, path: Path, i: nat)
    requires AllTrivial(p, names) && BlockAt(p, path).Some? && i <= Len(BlockAt(p, path).value)
    requires Targets(Drop(i, BlockAt(p, path).value)) <= Labels(p)
    ensures Sane(EraseAll(names), p, Drop(i, BlockAt(p, path).value), Around(p, path))
    decreases Size(Drop(i, BlockAt(p, path).value))
  {
    var b := BlockAt(p, path).value;
    if i == Len(b) {
      DropEnd(b);
    } else {
      DropNth(i, b);
      var a := NthStmt(b, i);
      var pos := Position(path, i);
      assert Size(Drop(i, b)) == 1 + SizeOf(a) + Size(Drop(i + 1, b));
      TrivialAll(p, names, path, i + 1);
      if a.Jump? { TrivialSane(p, names, pos); }
      if a.Nest? { TrivialAllIn(p, names, path, i, 0); }
    }
  }

  lemma {:induction false} TrivialAllIn(p: Block, names: set<nat>, path: Path, i: nat, j: nat)
    requires AllTrivial(p, names) && BlockAt(p, path).Some? && i < Len(BlockAt(p, path).value)
    requires NthStmt(BlockAt(p, path).value, i).Nest? && j < Count(NthStmt(BlockAt(p, path).value, i).rs)
    requires TargetsIn(DropRegions(j, NthStmt(BlockAt(p, path).value, i).rs)) <= Labels(p)
    ensures var a := NthStmt(BlockAt(p, path).value, i);
            SaneIn(EraseAll(names), p, DropRegions(j, a.rs),
                Inner(a, App(Drop(i + 1, BlockAt(p, path).value), Around(p, path))))
    decreases SizeIn(DropRegions(j, NthStmt(BlockAt(p, path).value, i).rs))
  {
    var a := NthStmt(BlockAt(p, path).value, i);
    DropRegionsNth(j, a.rs);
    Down(p, path, i, j);
    TrivialAll(p, names, path + [(i, j)], 0);
    if j + 1 < Count(a.rs) { TrivialAllIn(p, names, path, i, j + 1); }
  }

  lemma {:induction false} JumpsOk(r: Rule, b: Block)
    requires (r.Jumps? || r.DropLabels?) && Plain(b)
    ensures Ok(r, b)
  {
    if b.Cons? {
      JumpsOk(r, b.tl);
      if b.hd.Nest? { JumpsOkIn(r, b.hd.rs); }
    }
  }

  lemma {:induction false} JumpsOkIn(r: Rule, rs: Regions)
    requires (r.Jumps? || r.DropLabels?) && PlainIn(rs)
    ensures OkIn(r, rs)
  {
    JumpsOk(r, rs.b);
    if rs.More? { JumpsOkIn(r, rs.rest); }
  }

  /** Erasing any set of trivial jumps at once preserves every behaviour. */
  lemma TrivialJumpElimination(p: Block, names: set<nat>)
    requires WF(p) && AllTrivial(p, names)
    ensures Equivalent(p, Apply(EraseAll(names), p))
  {
    var r := EraseAll(names);
    assert Drop(0, p) == p;
    TrivialAll(p, names, [], 0);
    JumpsOk(r, p);
    RulePreserves(r, p);
  }
}
