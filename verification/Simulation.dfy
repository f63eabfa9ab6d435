/** The rewritten program follows the original step by step, up to silent steps. */
module Simulation {
  import opened Wrappers
  import opened Clift
  import opened Rules
  import opened Conditions
  import opened Places

  // ----- silent steps and measures -----

  function Lag(q: Block, d: Config, m: nat): Option<Config>
    decreases m
  {
    if m == 0 then Some(d)
    else if Quiet(q, d).Some? then Lag(q, Quiet(q, d).value, m - 1) else None
  }

  lemma {:induction false} LagAdd(q: Block, d: Config, m: nat, n: nat)
    requires Lag(q, d, m).Some?
    ensures Lag(q, d, m + n) == Lag(q, Lag(q, d, m).value, n)
    decreases m
  {
    if m > 0 { LagAdd(q, Quiet(q, d).value, m - 1, n); }
  }

  /** Evaluation steps strictly reduce this weight. */
  function Weigh(c: Cond, t: nat, f: nat): nat
    ensures Weigh(c, t, f) > t && Weigh(c, t, f) > f
  {
    match c
    case True => t + f + 1
    case Atom(_) => t + f + 1
    case Not(d) => Weigh(d, f, t) + 1
    case And(d, e) => Weigh(d, Weigh(e, t, f), f) + 1
  }

  function Weight(c: Config): nat {
    match c case Run(b) => Len(b) case Eval(d, t, f) => Weigh(d, Weight(t), Weight(f))
  }

  lemma WeightAnd(e: Cond, g: Cond, t: Config, f: Config)
    ensures Weight(Eval(e, Eval(g, t, f), f)) < Weight(Eval(And(e, g), t, f))
  {
    assert Weight(Eval(g, t, f)) == Weigh(g, Weight(t), Weight(f));
  }

  function Rank(c: Config): nat {
    match c
    case Run(b) => Len(SkipLabels(b))
    case Eval(_, t, f) => if Rank(t) < Rank(f) then Rank(f) else Rank(t)
  }

  predicate Less(c: Config, d: Config) {
    Rank(c) < Rank(d) || (Rank(c) == Rank(d) && Weight(c) < Weight(d))
  }

  // ----- the relation -----

  ghost predicate Reaches(q: Block, d: Config, e: Config) {
    exists m: nat :: Lag(q, d, m) == Some(e)
  }

  lemma ReachesSelf(q: Block, d: Config)
    ensures Reaches(q, d, d)
  {
    assert Lag(q, d, 0) == Some(d);
  }

  lemma ReachesThen(q: Block, d: Config, e: Config, f: Config)
    requires Reaches(q, d, e) && Reaches(q, e, f)
    ensures Reaches(q, d, f)
  {
    var m: nat :| Lag(q, d, m) == Some(e);
    var n: nat :| Lag(q, e, n) == Some(f);
    LagAdd(q, d, m, n);
  }

  lemma ReachesStep(q: Block, d: Config, e: Config)
    requires Quiet(q, d).Some? && Reaches(q, Quiet(q, d).value, e)
    ensures Reaches(q, d, e)
  {
    var m: nat :| Lag(q, Quiet(q, d).value, m) == Some(e);
    assert Lag(q, d, m + 1) == Some(e);
  }

  /** The right configuration silently reaches one that matches the left one. */
  ghost predicate Match(r: Rule, q: Block, c: Config, d: Config)
    decreases Weight(c)
  {
    match c
    case Run(s) => exists t :: Reaches(q, d, Run(t)) && Core(r, Apply(r, s)) == Core(r, t)
    case Eval(True, t, _) => Match(r, q, t, d)
    case Eval(Not(e), t, f) => Match(r, q, Eval(e, f, t), d)
    case Eval(And(e, g), t, f) => WeightAnd(e, g, t, f); Match(r, q, Eval(e, Eval(g, t, f), f), d)
    case Eval(Atom(x), t, f) =>
      exists t2, f2 :: Reaches(q, d, Eval(Atom(x), t2, f2)) && Match(r, q, t, t2) && Match(r, q, f, f2)
  }

  lemma {:induction false} MatchLag(r: Rule, q: Block, c: Config, d: Config, e: Config)
    requires Reaches(q, d, e) && Match(r, q, c, e)
    ensures Match(r, q, c, d)
    decreases Weight(c)
  {
    match c
    case Run(s) =>
      var t :| Reaches(q, e, Run(t)) && Core(r, Apply(r, s)) == Core(r, t);
      ReachesThen(q, d, e, Run(t));
    case Eval(True, t, _) => MatchLag(r, q, t, d, e);
    case Eval(Not(g), t, f) => MatchLag(r, q, Eval(g, f, t), d, e);
    case Eval(And(g, h), t, f) => WeightAnd(g, h, t, f); MatchLag(r, q, Eval(g, Eval(h, t, f), f), d, e);
    case Eval(Atom(x), t, f) =>
      var t2, f2 :| Reaches(q, e, Eval(Atom(x), t2, f2)) && Match(r, q, t, t2) && Match(r, q, f, f2);
      ReachesThen(q, d, e, Eval(Atom(x), t2, f2));
  }

  lemma MatchRun(r: Rule, q: Block, s: Block, t: Block)
    requires Core(r, Apply(r, s)) == Core(r, t)
    ensures Match(r, q, Run(s), Run(t))
  {
    ReachesSelf(q, Run(t));
  }

  /** The same condition on both sides. */
  lemma {:induction false} MatchEval(r: Rule, q: Block, e: Cond, t: Config, f: Config, t2: Config, f2: Config)
    requires Match(r, q, t, t2) && Match(r, q, f, f2)
    ensures Match(r, q, Eval(e, t, f), Eval(e, t2, f2))
    decreases e
  {
    var d := Eval(e, t2, f2);
    match e
    case True =>
      ReachesSelf(q, t2);
      ReachesStep(q, d, t2);
      MatchLag(r, q, t, d, t2);
    case Atom(x) => ReachesSelf(q, d);
    case Not(g) =>
      MatchEval(r, q, g, f, t, f2, t2);
      ReachesSelf(q, Eval(g, f2, t2));
      ReachesStep(q, d, Eval(g, f2, t2));
      MatchLag(r, q, Eval(g, f, t), d, Eval(g, f2, t2));
    case And(g, h) =>
      MatchEval(r, q, h, t, f, t2, f2);
      MatchEval(r, q, g, Eval(h, t, f), f, Eval(h, t2, f2), f2);
      ReachesSelf(q, Eval(g, Eval(h, t2, f2), f2));
      ReachesStep(q, d, Eval(g, Eval(h, t2, f2), f2));
      MatchLag(r, q, Eval(g, Eval(h, t, f), f), d, Eval(g, Eval(h, t2, f2), f2));
  }
}
