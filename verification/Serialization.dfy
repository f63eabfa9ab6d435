/** The analysis and the choice together: memory reads are only inlined where they can still be evaluated. */
module Serialization {
  import opened Wrappers
  import opened AvailableExpressions
  import opened Picker

  // ----- where instructions are -----

  /** An instruction is number `i` of a coalesced run, is a program point, comes after the last program point
      before it in its block, or comes before the first one of its block. */
  datatype Place = Member(n: nat, i: nat) | Point(n: nat) | After(n: nat) | Before(n: nat)

  /** The coalesced run consists of loads or of stores of constants. */
  ghost predicate GoodRun(c: Code, run: seq<nat>) {
    || ((forall j :: 0 <= j < |run| ==> PlainLoad(c, run[j])) && NoPruning(c, run))
    || forall j :: 0 <= j < |run| ==> ConstStore(c, run[j])
  }

  ghost predicate PlaceOk(c: Code, g: Graph, x: Place) {
    x.n < |g.runs| && (x.Member? ==> x.i < |g.runs[x.n]| && GoodRun(c, g.runs[x.n]))
  }

  /** `getAvailableAt`: the value after a run, before a point, or after the previous point. */
  function Answer(c: Code, g: Graph, ins: seq<set<Pair>>, x: Place): set<Pair> {
    if x.n < |g.runs| && x.n < |ins| then
      if x.Member? || x.After? then Replay(c, g.runs[x.n], ins[x.n]) else ins[x.n]
    else {}
  }

  /** The instructions executed before the one at `x`, on a path to its node. */
  function Executed(g: Graph, path: seq<nat>, x: Place): seq<nat>
    requires path != [] && forall i :: 0 <= i < |path| ==> path[i] < |g.runs|
    requires x.n < |g.runs| && (x.Member? ==> x.i < |g.runs[x.n]|)
  {
    match x
    case Member(n, i) => Trace(g, path) + g.runs[n][..i]
    case After(n) => Trace(g, path) + g.runs[n]
    case _ => Trace(g, path)
  }

  /** The value is not defined at or after the instruction in the run that holds it. */
  predicate DefinedBefore(g: Graph, x: Place, e: nat) {
    x.Member? && x.n < |g.runs| ==> forall j :: x.i <= j < |g.runs[x.n]| ==> g.runs[x.n][j] != e
  }

  predicate LeadsTo(g: Graph, path: seq<nat>, x: Place) { IsPath(g, path) && path[|path| - 1] == x.n }

  /** An answer inside a run is also an answer at the instruction itself. */
  lemma MemberAnswer(c: Code, run: seq<nat>, e: set<Pair>, i: nat, p: Pair)
    requires GoodRun(c, run) && i <= |run| && p in Replay(c, run, e)
    requires forall j :: i <= j < |run| ==> run[j] != p.expr
    ensures p in Replay(c, run[..i], e)
  {
    if forall j :: 0 <= j < |run| ==> ConstStore(c, run[j]) {
      ConstStoreRun(c, run, e, i);
    } else {
      LoadRun(c, run, e, i, p);
    }
  }

  /** On every path to the instruction, an answer was generated and not clobbered since. */
  lemma AnswerSound(c: Code, g: Graph, ins: seq<set<Pair>>, x: Place, p: Pair, path: seq<nat>)
    requires GraphOk(g) && Solution(c, g, ins) && PlaceOk(c, g, x) && LeadsTo(g, path, x)
    requires p in Answer(c, g, ins, x) && DefinedBefore(g, x, p.expr)
    ensures forall j :: 0 <= j < |path| ==> path[j] < |g.runs|
    ensures Holds(c, Executed(g, path, x), p)
  {
    var run := g.runs[x.n];
    PathNodes(g, path);
    match x
    case Member(_, i) => MemberAnswer(c, run, ins[x.n], i, p); Sound(c, g, ins, path, i);
    case After(_) => Sound(c, g, ins, path, |run|); assert run[..|run|] == run;
    case _ => Sound(c, g, ins, path, 0); assert run[..0] == [] && Trace(g, path) + [] == Trace(g, path);
  }

  /** What has been executed where the answer for `x` applies: inside a run, the whole run. */
  function Answering(g: Graph, path: seq<nat>, x: Place): seq<nat>
    requires x.n < |g.runs| && Leads(g, path, x.n)
  {
    if x.Member? || x.After? then Trace(g, path) + g.runs[x.n] else Trace(g, path)
  }

  lemma AfterRun(c: Code, g: Graph, n: nat, run: seq<nat>, p: Pair)
    requires n < |g.runs| && Reached(g, n) && !Alive(c, run, p)
    requires forall path :: Leads(g, path, n) ==> Alive(c, Trace(g, path) + run, p)
    ensures AliveOnAll(c, g, n, p) && KeptBy(c, run, p)
  {
    forall path | Leads(g, path, n) ensures Alive(c, Trace(g, path), p) && KeptBy(c, run, p) {
      AliveApp(c, Trace(g, path), run, p);
    }
  }

  /** Nothing is forgotten: a pair is answered if and only if it was generated and kept on every path. */
  lemma AnswerExact(c: Code, g: Graph, all: set<Pair>, ins: seq<set<Pair>>, x: Place, p: Pair)
    requires GraphOk(g) && Connected(g) && Greatest(c, g, all, ins) && x.n < |g.runs| && p in all
    ensures p in Answer(c, g, ins, x) <==>
              forall path :: Leads(g, path, x.n) ==> Alive(c, Answering(g, path, x), p)
  {
    var run := g.runs[x.n];
    Exactly(c, g, all, ins, x.n, p);
    if x.Member? || x.After? {
      ReplayExact(c, run, ins[x.n], p);
      forall path | Leads(g, path, x.n) && p in Answer(c, g, ins, x) ensures Alive(c, Answering(g, path, x), p) {
        AliveApp(c, Trace(g, path), run, p);
      }
      if (forall path :: Leads(g, path, x.n) ==> Alive(c, Answering(g, path, x), p)) && !Alive(c, run, p) {
        assert Reached(g, x.n);
        forall path | Leads(g, path, x.n) ensures Alive(c, Trace(g, path) + run, p) {
          assert Alive(c, Answering(g, path, x), p);
        }
        AfterRun(c, g, x.n, run, p);
      }
    } else {
      forall path | Leads(g, path, x.n) ensures Answering(g, path, x) == Trace(g, path) {}
    }
  }

  // ----- the choice on the answers -----

  /** The function: the code, its graph and the place of every instruction, and what the choice needs. */
  datatype Function = Function(
    code: Code,
    graph: Graph,
    place: nat -> Place,
    uses: nat -> seq<Use>,
    order: nat -> nat,
    sideEffects: nat -> bool,
    rank: nat -> nat)

  function Answered(f: Function, ins: seq<set<Pair>>): Program {
    Program(f.uses, (i: nat) => Answer(f.code, f.graph, ins, f.place(i)), f.order, f.sideEffects, f.rank)
  }

  /** Values are defined before they are used, directly or through other values. */
  ghost predicate FunctionOk(f: Function) {
    && GraphOk(f.graph) && (forall i: nat :: PlaceOk(f.code, f.graph, f.place(i)))
    && (forall i: nat, u :: u in f.uses(i) ==> f.rank(u.user) < f.rank(i))
    && forall i: nat, chain: seq<Use>, k: nat ::
         Chain(Answered(f, []), i, chain) && k < |chain| ==> DefinedBefore(f.graph, f.place(chain[k].user), i)
  }

  /** On every path to the user of `u`, the value `e` was computed and what it reads is unchanged since. */
  ghost predicate StillValid(f: Function, e: nat, u: Use)
    requires FunctionOk(f)
  {
    forall path :: LeadsTo(f.graph, path, f.place(u.user)) ==>
      (forall j :: 0 <= j < |path| ==> path[j] < |f.graph.runs|)
      && exists p: Pair :: p.expr == e && HoldsOn(f, path, u, p)
  }

  ghost predicate HoldsOn(f: Function, path: seq<nat>, u: Use, p: Pair)
    requires FunctionOk(f) && path != [] && forall j :: 0 <= j < |path| ==> path[j] < |f.graph.runs|
  {
    assert PlaceOk(f.code, f.graph, f.place(u.user));
    Holds(f.code, Executed(f.graph, path, f.place(u.user)), p)
  }

  /** On every path to the user of `u`, the assignment `a` stored the value `e`, and neither was clobbered. */
  ghost predicate StillStored(f: Function, e: nat, u: Use, a: nat)
    requires FunctionOk(f)
  {
    forall path :: LeadsTo(f.graph, path, f.place(u.user)) ==>
      (forall j :: 0 <= j < |path| ==> path[j] < |f.graph.runs|) && HoldsOn(f, path, u, Pair(e, Some(a)))
  }

  lemma {:induction false} SameChains(f: Function, ins: seq<set<Pair>>, i: nat, chain: seq<Use>)
    ensures Chain(Answered(f, ins), i, chain) == Chain(Answered(f, []), i, chain)
    decreases |chain|
  {
    if chain != [] { SameChains(f, ins, chain[0].user, chain[1..]); }
  }

  lemma InlinedValid(f: Function, ins: seq<set<Pair>>, m: nat, chain: seq<Use>, k: nat)
    requires FunctionOk(f) && Solution(f.code, f.graph, ins) && Chain(Answered(f, ins), m, chain) && k < |chain|
    requires AvailableAt(Answered(f, ins), m, chain[k])
    ensures StillValid(f, m, chain[k])
  {
    var x := f.place(chain[k].user);
    var p :| p in Answer(f.code, f.graph, ins, x) && p.expr == m;
    SameChains(f, ins, m, chain);
    assert PlaceOk(f.code, f.graph, x) && DefinedBefore(f.graph, x, m);
    forall path | LeadsTo(f.graph, path, x)
      ensures forall j :: 0 <= j < |path| ==> path[j] < |f.graph.runs|
      ensures HoldsOn(f, path, chain[k], p)
    {
      AnswerSound(f.code, f.graph, ins, x, p, path);
    }
  }

  lemma ReplacedStored(f: Function, ins: seq<set<Pair>>, m: nat, i: nat, u: Use, a: nat)
    requires FunctionOk(f) && Solution(f.code, f.graph, ins) && ReadsBack(Answered(f, ins), m, i, u, a)
    ensures u in f.uses(i) && StillStored(f, i, u, a)
  {
    var x, p := f.place(u.user), Pair(i, Some(a));
    assert [u][0] == u && [u][1..] == [];
    assert Chain(Answered(f, []), i, [u]);
    assert PlaceOk(f.code, f.graph, x) && DefinedBefore(f.graph, f.place([u][0].user), i);
    forall path | LeadsTo(f.graph, path, x)
      ensures forall j :: 0 <= j < |path| ==> path[j] < |f.graph.runs|
      ensures HoldsOn(f, path, u, p)
    {
      AnswerSound(f.code, f.graph, ins, x, p, path);
    }
  }

  lemma OnceStays(f: Function, ins: seq<set<Pair>>, m: nat, serialized: set<nat>, replaced: set<Use>)
    requires InlinedOnce(Answered(f, ins), m, serialized, replaced)
    ensures InlinedOnce(Answered(f, []), m, serialized, replaced)
  {
    forall chain: seq<Use> ensures Chain(Answered(f, ins), m, chain) == Chain(Answered(f, []), m, chain) {
      SameChains(f, ins, m, chain);
    }
  }

  /** With these answers, only what has to be is serialized or replaced. */
  ghost predicate Justified(f: Function, ins: seq<set<Pair>>, mems: seq<nat>, serialized: set<nat>,
      replaced: map<Use, nat>)
  {
    && (forall i :: i in serialized ==> Needed(Answered(f, ins), mems, i))
    && forall u :: u in replaced ==> ReplacedWell(Answered(f, ins), mems, u, replaced[u])
  }

  /** The analysis, then the choice: a memory read that is inlined into a user through a chain of values was
      evaluated on every path to that user, with nothing clobbered since, and only once if it has side effects;
      and a replaced use reads a location that still holds its value. */
  method Serialize(f: Function, all: set<Pair>, mems: seq<nat>) returns (serialized: set<nat>, replaced: map<Use, nat>)
    requires FunctionOk(f)
    ensures forall m, chain: seq<Use>, k: nat ::
              m in mems && Chain(Answered(f, []), m, chain) && Inlined(m, chain, serialized, replaced.Keys)
                  && k < |chain| ==>
                StillValid(f, m, chain[k])
    ensures forall m :: m in mems && f.sideEffects(m) ==>
              InlinedOnce(Answered(f, []), m, serialized, replaced.Keys)
    ensures forall u :: u in replaced ==> exists i: nat :: u in f.uses(i) && StillStored(f, i, u, replaced[u])
    ensures exists ins :: Greatest(f.code, f.graph, all, ins) && Justified(f, ins, mems, serialized, replaced)
  {
    var ins := Solve(f.code, f.graph, all);
    serialized, replaced := Choose(Answered(f, ins), mems);
    assert Justified(f, ins, mems, serialized, replaced);
    forall m, chain: seq<Use>, k: nat |
      m in mems && Chain(Answered(f, []), m, chain) && Inlined(m, chain, serialized, replaced.Keys) && k < |chain|
      ensures StillValid(f, m, chain[k])
    {
      SameChains(f, ins, m, chain);
      assert InlinedWell(Answered(f, ins), m, serialized, replaced.Keys);
      InlinedValid(f, ins, m, chain, k);
    }
    forall m | m in mems && f.sideEffects(m) ensures InlinedOnce(Answered(f, []), m, serialized, replaced.Keys) {
      OnceStays(f, ins, m, serialized, replaced.Keys);
    }
    forall u | u in replaced ensures exists i: nat :: u in f.uses(i) && StillStored(f, i, u, replaced[u]) {
      var m, i: nat :| m in mems && ReadsBack(Answered(f, ins), m, i, u, replaced[u]);
      ReplacedStored(f, ins, m, i, u, replaced[u]);
    }
  }
}
