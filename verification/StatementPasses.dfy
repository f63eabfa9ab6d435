/** Any sequence of statement rewrites, in any order. */
module StatementPasses {
  import opened Clift
  import opened Behaviours
  import opened Rules
  import opened Conditions
  import opened Preserve
  import opened WellFormed
  import opened InPlace
  import opened Branches
  import opened LoopConditions
  import opened Positions
  import opened JumpLaws
  import opened JumpNames
  import opened NewLoop
  import opened LoopCreation
  import opened LoopDetection
  import opened GotoCollection

  /** One application of a pattern. */
  datatype Pattern =
    | Equalize(id: nat, i: nat)
    | Duplicate(id: nat)
    | Invert(id: nat)
    | HoistOnly(id: nat, i: nat)
    | HoistTerminal(id: nat, i: nat)
    | Combine(id: nat, inner: Stmt, innerElse: bool)
    | PromoteWhile(id: nat, test: Stmt, thenBreak: bool)
    | PromoteDoWhile(id: nat, body: Block, test: Stmt, thenBreak: bool)
    | EraseJumps(names: set<nat>)
    | DropLabel(l: nat)

  /** The pattern matches. */
  ghost predicate Matches(p: Block, x: Pattern)
    requires Proper(p)
  {
    match x
    case Equalize(id, i) => HasBranch(p, id) && OnlyFall(Op(p, id).rs, i)
    case Duplicate(id) => HasBranch(p, id) && Behind(p, id).Cons? && Behind(p, id).hd.Jump? && Behind(p, id).tl == Nil
    case Invert(id) => HasBranch(p, id) && TwoWay(Op(p, id))
    case HoistOnly(id, i) =>
      && HasBranch(p, id) && OnlyFall(Op(p, id).rs, i) && Nth(Op(p, id).rs, i) != Nil
      && (Op(p, id).tag.test.If? ==> TwoWay(Op(p, id)))
    case HoistTerminal(id, i) =>
      && HasBranch(p, id) && i < Count(Op(p, id).rs) && (forall j: nat :: !Falls(Op(p, id).rs, j))
      && (Op(p, id).tag.test.If? ==> TwoWay(Op(p, id)))
    case Combine(id, inner, innerElse) => HasBranch(p, id) && Nests(Op(p, id), inner, false, innerElse)
    case PromoteWhile(id, test, thenBreak) => HasEndless(p, id) && LeadingBreak(Op(p, id), test, thenBreak)
    case PromoteDoWhile(id, body, test, thenBreak) =>
      HasEndless(p, id) && TrailingBreak(Op(p, id), body, test, thenBreak)
    case EraseJumps(names) => AllTrivial(p, names)
    case DropLabel(l) => l in Labels(p) && l !in Targets(p)
  }

  /** What the pattern makes of the program; copies of a jump still share its name. */
  ghost function Raw(p: Block, x: Pattern): Block
    requires Proper(p) && Matches(p, x)
  {
    match x
    case Equalize(id, i) => Apply(Sink(id, i, Hoistable(Behind(p, id))), p)
    case Duplicate(id) => Apply(Spread(id), p)
    case Invert(id) => Apply(Swap(id), p)
    case HoistOnly(id, i) => Hoist(p, id, i)
    case HoistTerminal(id, i) => Hoist(p, id, i)
    case Combine(id, inner, innerElse) => Put(id, Single(Merged(Op(p, id), inner, false, innerElse)), p)
    case PromoteWhile(id, test, thenBreak) => Put(id, Single(Promoted(Op(p, id), test, thenBreak)), p)
    case PromoteDoWhile(id, body, test, thenBreak) => Put(id, Single(DoPromoted(Op(p, id), body, test, thenBreak)), p)
    case EraseJumps(names) => Apply(EraseAll(names), p)
    case DropLabel(l) => Apply(DropLabels({l}), p)
  }

  /** In the result every jump has a name of its own, so that copies can be told apart. */
  ghost function Rewritten(p: Block, x: Pattern): Block
    requires Proper(p) && Matches(p, x)
  {
    Numbered(0, Raw(p, x))
  }

  lemma ErasedKeeps(p: Block, names: set<nat>)
    requires WF(p)
    ensures WF(Apply(EraseAll(names), p))
  {
    var r := EraseAll(names);
    JumpsOk(r, p);
    PlainApply(r, p);
    DistinctApply(r, p);
    JumpsForm(r, p);
  }

  lemma RawKeeps(p: Block, x: Pattern)
    requires Proper(p) && Matches(p, x)
    ensures WF(Raw(p, x)) && Equivalent(p, Raw(p, x))
  {
    match x
    case Equalize(id, i) => BranchEqualization(p, id, i);
    case Duplicate(id) => JumpDuplication(p, id);
    case Invert(id) => IfInversion(p, id);
    case HoistOnly(id, i) => UniqueFallthroughHoisting(p, id, i);
    case HoistTerminal(id, i) => TerminalHoisting(p, id, i);
    case Combine(id, inner, innerElse) => IfAndCombining(p, id, inner, innerElse);
    case PromoteWhile(id, test, thenBreak) => WhileConditionPromotion(p, id, test, thenBreak);
    case PromoteDoWhile(id, body, test, thenBreak) => DoWhileConditionPromotion(p, id, body, test, thenBreak);
    case EraseJumps(names) => TrivialJumpElimination(p, names); ErasedKeeps(p, names);
    case DropLabel(l) => DropKeeps(p, l);
  }

  lemma OnePattern(p: Block, x: Pattern)
    requires Proper(p) && Matches(p, x)
    ensures Proper(Rewritten(p, x)) && Equivalent(p, Rewritten(p, x))
  {
    RawKeeps(p, x);
    NumberedKeeps(Raw(p, x));
    Transitive(p, Raw(p, x), Rewritten(p, x));
  }

  /** The patterns can be applied one after the other, with this result. */
  ghost predicate Runs(p: Block, xs: seq<Pattern>, q: Block)
    decreases |xs|
  {
    if xs == [] then q == p else Proper(p) && Matches(p, xs[0]) && Runs(Rewritten(p, xs[0]), xs[1..], q)
  }

  /** Every run of the pattern driver preserves all behaviours and the form of the program. */
  lemma {:induction false} AnyRun(p: Block, xs: seq<Pattern>, q: Block)
    requires Proper(p) && Runs(p, xs, q)
    ensures Proper(q) && Equivalent(p, q)
    decreases |xs|
  {
    if xs != [] {
      var m := Rewritten(p, xs[0]);
      OnePattern(p, xs[0]);
      AnyRun(m, xs[1..], q);
      Transitive(p, m, q);
    }
  }

  /** Loop detection after any run of the patterns, before any other: the program that goes in and every
      program that can come out have the same behaviours. */
  method LoopsBetweenRuns(p: Block, ghost xs: seq<Pattern>, q: Block) returns (r: Block)
    requires Proper(p) && Runs(p, xs, q)
    ensures Proper(r) && Equivalent(p, r) && Gotos(r) <= Gotos(q) && forall l: nat :: Backward(r, l) == {}
    ensures forall ys: seq<Pattern>, s :: Runs(r, ys, s) ==> Proper(s) && Equivalent(p, s)
  {
    AnyRun(p, xs, q);
    r := CreateLoops(q);
    Transitive(p, q, r);
    forall ys: seq<Pattern>, s | Runs(r, ys, s) ensures Proper(s) && Equivalent(p, s) {
      AnyRun(r, ys, s);
      Transitive(p, r, s);
    }
  }
}
