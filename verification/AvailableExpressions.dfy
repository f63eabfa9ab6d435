/** Available expressions: a must-analysis over runs of instructions. */
module AvailableExpressions {
  import opened Wrappers

  /** An expression, and the assignment through which its value can be read back, if any. */
  datatype Pair = Pair(expr: nat, assign: Option<nat>)

  /** What is known about instructions; `stored` is the instruction whose value a store makes available,
      and `past(i, s)` says that the variable written by store `s` is dead at `i`. */
  datatype Code = Code(
    sideEffects: nat -> bool,
    clobbers: (nat, nat) -> bool,
    reading: nat -> bool,
    stored: nat -> Option<nat>,
    past: (nat, nat) -> bool)

  // ----- transfer function -----

  predicate Kills(c: Code, i: nat, p: Pair) {
    c.sideEffects(i) && (c.clobbers(i, p.expr) || (p.assign.Some? && c.clobbers(i, p.assign.value)))
  }

  predicate Prunes(c: Code, i: nat, p: Pair) { p.assign.Some? && c.past(i, p.assign.value) }

  predicate Generates(c: Code, i: nat, p: Pair) {
    || (c.reading(i) && p == Pair(i, None))
    || (p.assign == Some(i) && c.stored(i) == Some(p.expr))
  }

  function Generated(c: Code, i: nat): (s: set<Pair>)
    ensures forall p :: p in s <==> Generates(c, i, p)
  {
    (if c.stored(i).Some? then {Pair(c.stored(i).value, Some(i))} else {})
    + (if c.reading(i) then {Pair(i, None)} else {})
  }

  function Transfer(c: Code, i: nat, e: set<Pair>): set<Pair> {
    (set p | p in e && !Kills(c, i, p) && !Prunes(c, i, p)) + Generated(c, i)
  }

  /** The set is edited in place. */
  method ApplyTransfer(c: Code, i: nat, e: set<Pair>) returns (r: set<Pair>)
    ensures r == Transfer(c, i, e)
  {
    r := e;
    if c.sideEffects(i) {
      var todo := e;
      while todo != {}
        invariant todo <= e && r == set p | p in e && (p in todo || !Kills(c, i, p))
      {
        var p :| p in todo;
        todo := todo - {p};
        if c.clobbers(i, p.expr) || (p.assign.Some? && c.clobbers(i, p.assign.value)) { r := r - {p}; }
      }
    }
    ghost var kept := r;
    var todo := r;
    while todo != {}
      invariant todo <= kept && r == set p | p in kept && (p in todo || !Prunes(c, i, p))
    {
      var p :| p in todo;
      todo := todo - {p};
      if p.assign.Some? && c.past(i, p.assign.value) { r := r - {p}; }
    }
    if c.stored(i).Some? { r := r + {Pair(c.stored(i).value, Some(i))}; }
    if c.reading(i) { r := r + {Pair(i, None)}; }
  }

  function Replay(c: Code, run: seq<nat>, e: set<Pair>): set<Pair> {
    if run == [] then e else Transfer(c, run[|run| - 1], Replay(c, run[..|run| - 1], e))
  }

  /** All instructions of a coalesced run, one after the other. */
  method ApplyRun(c: Code, run: seq<nat>, e: set<Pair>) returns (r: set<Pair>)
    ensures r == Replay(c, run, e)
  {
    r := e;
    var i := 0;
    assert run[..0] == [];
    while i < |run|
      invariant 0 <= i <= |run| && r == Replay(c, run[..i], e)
    {
      r := ApplyTransfer(c, run[i], r);
      assert run[..i + 1][..i] == run[..i] && run[..i + 1][i] == run[i];
      i := i + 1;
    }
    assert run[..|run|] == run;
  }

  // ----- what availability means -----

  /** On the executed instructions `t`, the pair was generated and nothing since may clobber its
      expression or its assignment. */
  ghost predicate Holds(c: Code, t: seq<nat>, p: Pair) {
    exists k :: 0 <= k < |t| && Generates(c, t[k], p) && forall j :: k < j < |t| ==> !Kills(c, t[j], p)
  }

  /** The generation may be taken to be the last one. */
  lemma {:induction false} LastGeneration(c: Code, t: seq<nat>, p: Pair) returns (k: nat)
    requires Holds(c, t, p)
    ensures k < |t| && Generates(c, t[k], p)
    ensures forall j :: k < j < |t| ==> !Kills(c, t[j], p) && !Generates(c, t[j], p)
  {
    var n :| 0 <= n < |t| && Generates(c, t[n], p) && forall j :: n < j < |t| ==> !Kills(c, t[j], p);
    k := |t| - 1;
    while !Generates(c, t[k], p)
      invariant n <= k < |t| && forall j :: k < j < |t| ==> !Generates(c, t[j], p)
      decreases k
    {
      k := k - 1;
    }
  }

  ghost predicate AllHold(c: Code, t: seq<nat>, e: set<Pair>) { forall p :: p in e ==> Holds(c, t, p) }

  lemma TransferSound(c: Code, t: seq<nat>, i: nat, e: set<Pair>)
    requires AllHold(c, t, e)
    ensures AllHold(c, t + [i], Transfer(c, i, e))
  {
    var u := t + [i];
    forall p | p in Transfer(c, i, e)
      ensures Holds(c, u, p)
    {
      if p in Generated(c, i) {
        assert u[|t|] == i;
      } else {
        var k :| 0 <= k < |t| && Generates(c, t[k], p) && forall j :: k < j < |t| ==> !Kills(c, t[j], p);
        assert u[k] == t[k];
        forall j | k < j < |u| ensures !Kills(c, u[j], p) { if j < |t| { assert u[j] == t[j]; } }
      }
    }
  }

  lemma {:induction false} ReplaySound(c: Code, t: seq<nat>, run: seq<nat>, e: set<Pair>)
    requires AllHold(c, t, e)
    ensures AllHold(c, t + run, Replay(c, run, e))
  {
    if run == [] {
      assert t + run == t;
    } else {
      var n := |run| - 1;
      ReplaySound(c, t, run[..n], e);
      TransferSound(c, t + run[..n], run[n], Replay(c, run[..n], e));
      assert t + run[..n] + [run[n]] == t + run;
    }
  }

  // ----- the flow graph -----

  /** A node is a program point with the run of instructions it stands for. */
  datatype Graph = Graph(runs: seq<seq<nat>>, edges: set<(nat, nat)>, entry: nat)

  predicate GraphOk(g: Graph) {
    g.entry < |g.runs| && forall e :: e in g.edges ==> e.0 < |g.runs| && e.1 < |g.runs|
  }

  /** Nothing is available at the entry; elsewhere only what all predecessors provide. */
  predicate Solution(c: Code, g: Graph, ins: seq<set<Pair>>)
    requires GraphOk(g)
  {
    && |ins| == |g.runs| && ins[g.entry] == {}
    && forall e :: e in g.edges ==> ins[e.1] <= Replay(c, g.runs[e.0], ins[e.0])
  }

  predicate IsPath(g: Graph, path: seq<nat>) {
    && path != [] && path[0] == g.entry
    && forall i :: 0 <= i < |path| - 1 ==> (path[i], path[i + 1]) in g.edges
  }

  /** The instructions executed on a path before its last node. */
  function Trace(g: Graph, path: seq<nat>): seq<nat>
    requires path != [] && forall i :: 0 <= i < |path| ==> path[i] < |g.runs|
  {
    if |path| == 1 then [] else Trace(g, path[..|path| - 1]) + g.runs[path[|path| - 2]]
  }

  lemma PathNodes(g: Graph, path: seq<nat>)
    requires GraphOk(g) && IsPath(g, path)
    ensures forall i :: 0 <= i < |path| ==> path[i] < |g.runs|
  {
    forall i | 0 <= i < |path| ensures path[i] < |g.runs| {
      if i > 0 { assert (path[i - 1], path[i - 1 + 1]) in g.edges; }
    }
  }

  /** On every path to a program point, and up to every instruction of its run, everything in the
      solution was generated and not clobbered since. */
  lemma {:induction false} Sound(c: Code, g: Graph, ins: seq<set<Pair>>, path: seq<nat>, i: nat)
    requires GraphOk(g) && Solution(c, g, ins) && IsPath(g, path)
    requires path[|path| - 1] < |g.runs| ==> i <= |g.runs[path[|path| - 1]]|
    ensures forall j :: 0 <= j < |path| ==> path[j] < |g.runs|
    ensures var n := path[|path| - 1];
            AllHold(c, Trace(g, path) + g.runs[n][..i], Replay(c, g.runs[n][..i], ins[n]))
    decreases |path|
  {
    PathNodes(g, path);
    var n := path[|path| - 1];
    if |path| > 1 {
      var up, m := path[..|path| - 1], path[|path| - 2];
      assert (path[|path| - 2], path[|path| - 2 + 1]) in g.edges;
      assert IsPath(g, up) by {
        forall j | 0 <= j < |up| - 1 ensures (up[j], up[j + 1]) in g.edges { assert (path[j], path[j + 1]) in g.edges; }
      }
      Sound(c, g, ins, up, |g.runs[m]|);
      assert g.runs[m][..|g.runs[m]|] == g.runs[m];
      assert AllHold(c, Trace(g, path), ins[n]);
    }
    ReplaySound(c, Trace(g, path), g.runs[n][..i], ins[n]);
  }

  // ----- one point per instruction -----

  lemma {:induction false} ReplayMonotone(c: Code, run: seq<nat>, d: set<Pair>, e: set<Pair>)
    requires d <= e
    ensures Replay(c, run, d) <= Replay(c, run, e)
  {
    if run != [] { ReplayMonotone(c, run[..|run| - 1], d, e); }
  }

  /** A solution with one set before each instruction, and one at the end of each run. */
  ghost predicate FineSolution(c: Code, g: Graph, f: (nat, nat) -> set<Pair>)
    requires GraphOk(g)
  {
    && f(g.entry, 0) == {}
    && (forall n: nat, i: nat :: n < |g.runs| && i < |g.runs[n]| ==> f(n, i + 1) <= Transfer(c, g.runs[n][i], f(n, i)))
    && (forall e :: e in g.edges ==> f(e.1, 0) <= f(e.0, |g.runs[e.0]|))
  }

  /** The sets inside runs, recovered by replaying. */
  function Inside(c: Code, g: Graph, ins: seq<set<Pair>>, n: nat, i: nat): set<Pair>
  {
    if n < |g.runs| && n < |ins| && i <= |g.runs[n]| then Replay(c, g.runs[n][..i], ins[n]) else {}
  }

  function Replayed(c: Code, g: Graph, ins: seq<set<Pair>>): (nat, nat) -> set<Pair> {
    (n: nat, i: nat) => Inside(c, g, ins, n, i)
  }

  lemma CoarseIsFine(c: Code, g: Graph, ins: seq<set<Pair>>)
    requires GraphOk(g) && Solution(c, g, ins)
    ensures FineSolution(c, g, Replayed(c, g, ins))
  {
    var f := Replayed(c, g, ins);
    forall n: nat, i: nat | n < |g.runs| && i < |g.runs[n]|
      ensures f(n, i + 1) <= Transfer(c, g.runs[n][i], f(n, i))
    {
      assert g.runs[n][..i + 1][..i] == g.runs[n][..i] && g.runs[n][..i + 1][i] == g.runs[n][i];
    }
    forall e | e in g.edges
      ensures f(e.1, 0) <= f(e.0, |g.runs[e.0]|)
    {
      assert g.runs[e.0][..|g.runs[e.0]|] == g.runs[e.0] && g.runs[e.1][..0] == [];
    }
  }

  lemma {:induction false} FineBelowReplay(c: Code, g: Graph, f: (nat, nat) -> set<Pair>, n: nat, i: nat)
    requires GraphOk(g) && FineSolution(c, g, f) && n < |g.runs| && i <= |g.runs[n]|
    ensures f(n, i) <= Replay(c, g.runs[n][..i], f(n, 0))
    decreases i
  {
    if i > 0 {
      FineBelowReplay(c, g, f, n, i - 1);
      assert g.runs[n][..i][..i - 1] == g.runs[n][..i - 1] && g.runs[n][..i][i - 1] == g.runs[n][i - 1];
    } else {
      assert g.runs[n][..0] == [];
    }
  }

  lemma FineIsCoarse(c: Code, g: Graph, f: (nat, nat) -> set<Pair>)
    requires GraphOk(g) && FineSolution(c, g, f)
    ensures Solution(c, g, seq(|g.runs|, n requires 0 <= n < |g.runs| => f(n, 0)))
  {
    forall e | e in g.edges
      ensures f(e.1, 0) <= Replay(c, g.runs[e.0], f(e.0, 0))
    {
      FineBelowReplay(c, g, f, e.0, |g.runs[e.0]|);
      assert g.runs[e.0][..|g.runs[e.0]|] == g.runs[e.0];
    }
  }

  /** Nothing outside `all` is ever considered. */
  ghost predicate Within(ins: seq<set<Pair>>, all: set<Pair>) { forall n :: 0 <= n < |ins| ==> ins[n] <= all }

  ghost predicate Below(ins: seq<set<Pair>>, other: seq<set<Pair>>) {
    |ins| == |other| && forall n :: 0 <= n < |ins| ==> ins[n] <= other[n]
  }

  ghost predicate Greatest(c: Code, g: Graph, all: set<Pair>, ins: seq<set<Pair>>)
    requires GraphOk(g)
  {
    Solution(c, g, ins) && Within(ins, all) && forall other ::
        Solution(c, g, other) && Within(other, all) ==> Below(other, ins)
  }

  /** Coalescing loses nothing: replaying runs from the greatest solution over runs gives the greatest
      solution with one point per instruction. */
  lemma Coalescing(c: Code, g: Graph, all: set<Pair>, ins: seq<set<Pair>>, f: (nat, nat) -> set<Pair>, n: nat, i: nat)
    requires GraphOk(g) && Greatest(c, g, all, ins) && FineSolution(c, g, f) && n < |g.runs| && i <= |g.runs[n]|
    requires forall m :: 0 <= m < |g.runs| ==> f(m, 0) <= all
    ensures FineSolution(c, g, Replayed(c, g, ins)) && f(n, i) <= Inside(c, g, ins, n, i)
  {
    CoarseIsFine(c, g, ins);
    FineIsCoarse(c, g, f);
    var starts := seq(|g.runs|, n requires 0 <= n < |g.runs| => f(n, 0));
    assert Within(starts, all);
    assert Below(starts, ins);
    FineBelowReplay(c, g, f, n, i);
    ReplayMonotone(c, g.runs[n][..i], f(n, 0), ins[n]);
  }

  // ----- the fixed point -----

  function Total(ins: seq<set<Pair>>): nat {
    if ins == [] then 0 else Total(ins[..|ins| - 1]) + |ins[|ins| - 1]|
  }

  lemma {:induction false} TotalDrops(ins: seq<set<Pair>>, n: nat, s: set<Pair>)
    requires n < |ins| && s < ins[n]
    ensures Total(ins[n := s]) < Total(ins)
  {
    var k := |ins| - 1;
    if n == k {
      assert ins[n := s][..k] == ins[..k];
      Smaller(s, ins[n]);
    } else {
      assert ins[n := s][..k] == ins[..k][n := s];
      TotalDrops(ins[..k], n, s);
    }
  }

  lemma Smaller(s: set<Pair>, t: set<Pair>)
    requires s < t
    ensures |s| < |t|
  {
    var x :| x in t && x !in s;
    assert s + (t - s) == t && s !! (t - s) && x in t - s;
  }

  /** What holds between iterations: edges out of nodes that are not waiting are respected. */
  ghost predicate Settled(c: Code, g: Graph, ins: seq<set<Pair>>, work: set<nat>)
    requires GraphOk(g) && |ins| == |g.runs|
  {
    forall e :: e in g.edges && e.0 !in work ==> ins[e.1] <= Replay(c, g.runs[e.0], ins[e.0])
  }

  ghost predicate AboveAll(c: Code, g: Graph, all: set<Pair>, ins: seq<set<Pair>>)
    requires GraphOk(g)
  {
    forall other :: Solution(c, g, other) && Within(other, all) ==> Below(other, ins)
  }

  lemma StaysAbove(c: Code, g: Graph, all: set<Pair>, ins: seq<set<Pair>>, m: nat, n: nat, out: set<Pair>)
    requires GraphOk(g) && AboveAll(c, g, all, ins) && |ins| == |g.runs| && (m, n) in g.edges
    requires Replay(c, g.runs[m], ins[m]) <= out
    ensures AboveAll(c, g, all, ins[n := ins[n] * out])
  {
    forall other | Solution(c, g, other) && Within(other, all)
      ensures Below(other, ins[n := ins[n] * out])
    {
      assert Below(other, ins);
      assert other[m] <= ins[m] && other[(m, n).1] <= Replay(c, g.runs[(m, n).0], other[(m, n).0]);
      ReplayMonotone(c, g.runs[m], other[m], ins[m]);
    }
  }

  function UpTo(n: nat): (r: set<nat>)
    ensures forall i: nat :: i in r <==> i < n
  {
    if n == 0 then {} else UpTo(n - 1) + {n - 1}
  }

  ghost predicate Sized(g: Graph, all: set<Pair>, ins: seq<set<Pair>>, work: set<nat>)
    requires GraphOk(g)
  {
    |ins| == |g.runs| && ins[g.entry] == {} && Within(ins, all) && forall n :: n in work ==> n < |g.runs|
  }

  /** The edges out of `m` that are not in `todo` are respected, if its set is still the one `out` was
      computed from. */
  ghost predicate SettledBut(c: Code, g: Graph, ins: seq<set<Pair>>, work: set<nat>, m: nat, todo: set<(nat, nat)>,
      out: set<Pair>)
    requires GraphOk(g) && |ins| == |g.runs|
  {
    && (forall e :: e in g.edges && e.0 !in work && e.0 != m ==> ins[e.1] <= Replay(c, g.runs[e.0], ins[e.0]))
    && (forall e :: e in g.edges && e.0 == m && e !in todo ==> ins[e.1] <= out)
  }

  lemma Lowered(c: Code, g: Graph, ins: seq<set<Pair>>, work: set<nat>, m: nat, todo: set<(nat, nat)>, out: set<Pair>,
      e: (nat, nat))
    requires GraphOk(g) && |ins| == |g.runs| && e in todo && e in g.edges && e.0 == m
    requires SettledBut(c, g, ins, work, m, todo, out)
    ensures var n := e.1;
            SettledBut(c, g, ins[n := ins[n] * out], work + {n}, m, todo - {e}, out)
  {
    var n := e.1;
    var low := ins[n := ins[n] * out];
    forall d | d in g.edges && d.0 !in work + {n} && d.0 != m
      ensures low[d.1] <= Replay(c, g.runs[d.0], low[d.0])
    {
      assert ins[d.1] <= Replay(c, g.runs[d.0], ins[d.0]);
    }
  }

  /** Pushes the new out-set of node `m` to its successors. */
  method Propagate(c: Code, g: Graph, all: set<Pair>, ins0: seq<set<Pair>>, work0: set<nat>, m: nat, out: set<Pair>)
    returns (ins: seq<set<Pair>>, work: set<nat>)
    requires GraphOk(g) && Sized(g, all, ins0, work0) && m < |g.runs| && m !in work0
    requires out == Replay(c, g.runs[m], ins0[m])
    requires Settled(c, g, ins0, work0 + {m}) && AboveAll(c, g, all, ins0)
    ensures Sized(g, all, ins, work) && Settled(c, g, ins, work) && AboveAll(c, g, all, ins)
    ensures (ins == ins0 && work == work0) || Total(ins) < Total(ins0)
  {
    ins, work := ins0, work0;
    var todo := set e | e in g.edges && e.0 == m;
    while todo != {}
      invariant Sized(g, all, ins, work) && AboveAll(c, g, all, ins)
      invariant todo <= g.edges && forall e :: e in todo ==> e.0 == m
      invariant SettledBut(c, g, ins, work, m, todo, out)
      invariant ins[m] <= ins0[m] && (m !in work ==> ins[m] == ins0[m])
      invariant (ins == ins0 && work == work0) || Total(ins) < Total(ins0)
      decreases |todo|
    {
      var e :| e in todo;
      var n := e.1;
      if !(ins[n] <= out) {
        ReplayMonotone(c, g.runs[m], ins[m], ins0[m]);
        StaysAbove(c, g, all, ins, m, n, out);
        TotalDrops(ins, n, ins[n] * out);
        Lowered(c, g, ins, work, m, todo, out, e);
        ins, work := ins[n := ins[n] * out], work + {n};
      }
      todo := todo - {e};
    }
  }

  /** The worklist algorithm: starting from everything, sets only shrink. */
  method Solve(c: Code, g: Graph, all: set<Pair>) returns (ins: seq<set<Pair>>)
    requires GraphOk(g)
    ensures Greatest(c, g, all, ins)
  {
    ins := seq(|g.runs|, n => if n == g.entry then {} else all);
    var work := UpTo(|g.runs|);
    while work != {}
      invariant Sized(g, all, ins, work) && Settled(c, g, ins, work) && AboveAll(c, g, all, ins)
      decreases Total(ins), |work|
    {
      var m :| m in work;
      var out := ApplyRun(c, g.runs[m], ins[m]);
      assert work - {m} + {m} == work;
      ins, work := Propagate(c, g, all, ins, work - {m}, m, out);
    }
  }

  // ----- exactly what is available -----

  /** The instruction leaves the pair in the set. */
  predicate Keeps(c: Code, i: nat, p: Pair) { !Kills(c, i, p) && !Prunes(c, i, p) }

  ghost predicate KeptBy(c: Code, t: seq<nat>, p: Pair) { forall j :: 0 <= j < |t| ==> Keeps(c, t[j], p) }

  /** The pair was generated and kept ever since. */
  ghost predicate Alive(c: Code, t: seq<nat>, p: Pair) {
    exists k :: 0 <= k < |t| && Generates(c, t[k], p) && KeptBy(c, t[k + 1..], p)
  }

  lemma KeptApp(c: Code, t: seq<nat>, u: seq<nat>, p: Pair)
    ensures KeptBy(c, t + u, p) <==> KeptBy(c, t, p) && KeptBy(c, u, p)
  {
    if KeptBy(c, t + u, p) {
      forall j | 0 <= j < |t| ensures Keeps(c, t[j], p) { assert (t + u)[j] == t[j]; }
      forall j | 0 <= j < |u| ensures Keeps(c, u[j], p) { assert (t + u)[|t| + j] == u[j]; }
    }
  }

  lemma AliveApp(c: Code, t: seq<nat>, u: seq<nat>, p: Pair)
    ensures Alive(c, t + u, p) <==> Alive(c, u, p) || (Alive(c, t, p) && KeptBy(c, u, p))
  {
    if Alive(c, t + u, p) {
      var k :| 0 <= k < |t + u| && Generates(c, (t + u)[k], p) && KeptBy(c, (t + u)[k + 1..], p);
      if k < |t| {
        assert (t + u)[k + 1..] == t[k + 1..] + u && t[k] == (t + u)[k];
        KeptApp(c, t[k + 1..], u, p);
      } else {
        assert (t + u)[k + 1..] == u[k - |t| + 1..] && u[k - |t|] == (t + u)[k];
      }
    }
    if Alive(c, u, p) {
      var k :| 0 <= k < |u| && Generates(c, u[k], p) && KeptBy(c, u[k + 1..], p);
      assert (t + u)[|t| + k] == u[k] && (t + u)[|t| + k + 1..] == u[k + 1..];
    } else if Alive(c, t, p) && KeptBy(c, u, p) {
      var k :| 0 <= k < |t| && Generates(c, t[k], p) && KeptBy(c, t[k + 1..], p);
      assert (t + u)[k] == t[k] && (t + u)[k + 1..] == t[k + 1..] + u;
      KeptApp(c, t[k + 1..], u, p);
    }
  }

  lemma AliveOne(c: Code, i: nat, p: Pair)
    ensures Alive(c, [i], p) <==> Generates(c, i, p)
    ensures KeptBy(c, [i], p) <==> Keeps(c, i, p)
  {
    assert [i][0] == i && [i][1..] == [];
  }

  /** A run leaves what it generated and kept, and what it found and kept. */
  lemma {:induction false} ReplayExact(c: Code, run: seq<nat>, e: set<Pair>, p: Pair)
    ensures p in Replay(c, run, e) <==> Alive(c, run, p) || (p in e && KeptBy(c, run, p))
  {
    if run != [] {
      var t, i := run[..|run| - 1], run[|run| - 1];
      ReplayExact(c, t, e, p);
      assert run == t + [i];
      AliveApp(c, t, [i], p);
      KeptApp(c, t, [i], p);
      AliveOne(c, i, p);
    }
  }

  ghost predicate Leads(g: Graph, path: seq<nat>, n: nat) {
    IsPath(g, path) && path[|path| - 1] == n && forall i :: 0 <= i < |path| ==> path[i] < |g.runs|
  }

  ghost predicate AliveOnAll(c: Code, g: Graph, n: nat, p: Pair) {
    forall path :: Leads(g, path, n) ==> Alive(c, Trace(g, path), p)
  }

  lemma {:induction false} SolutionAlive(c: Code, g: Graph, ins: seq<set<Pair>>, path: seq<nat>, p: Pair)
    requires GraphOk(g) && Solution(c, g, ins) && IsPath(g, path)
    requires forall i :: 0 <= i < |path| ==> path[i] < |g.runs|
    requires p in ins[path[|path| - 1]]
    ensures Alive(c, Trace(g, path), p)
    decreases |path|
  {
    if |path| > 1 {
      var up, m := path[..|path| - 1], path[|path| - 2];
      assert (path[|path| - 2], path[|path| - 2 + 1]) in g.edges;
      assert IsPath(g, up) by {
        forall j | 0 <= j < |up| - 1 ensures (up[j], up[j + 1]) in g.edges { assert (path[j], path[j + 1]) in g.edges; }
      }
      ReplayExact(c, g.runs[m], ins[m], p);
      if p in ins[m] { SolutionAlive(c, g, ins, up, p); }
      AliveApp(c, Trace(g, up), g.runs[m], p);
    }
  }

  ghost predicate Reached(g: Graph, n: nat) { exists path :: Leads(g, path, n) }

  /** Some path of the graph leads to each node. */
  ghost predicate Connected(g: Graph) { forall n: nat :: n < |g.runs| ==> Reached(g, n) }

  ghost function AliveSets(c: Code, g: Graph, all: set<Pair>): seq<set<Pair>> {
    seq(|g.runs|, n requires 0 <= n < |g.runs| => AliveSet(c, g, all, n))
  }

  ghost function AliveSet(c: Code, g: Graph, all: set<Pair>, n: nat): set<Pair> {
    set p | p in all && AliveOnAll(c, g, n, p)
  }

  lemma Extended(g: Graph, path: seq<nat>, e: (nat, nat))
    requires GraphOk(g) && Leads(g, path, e.0) && e in g.edges
    ensures Leads(g, path + [e.1], e.1) && Trace(g, path + [e.1]) == Trace(g, path) + g.runs[e.0]
  {
    var more := path + [e.1];
    forall i | 0 <= i < |more| - 1 ensures (more[i], more[i + 1]) in g.edges {
      if i < |path| - 1 { assert (path[i], path[i + 1]) in g.edges; }
    }
    assert more[..|more| - 1] == path;
  }

  /** What is alive on all paths to a node goes over every edge to it. */
  lemma AliveEdge(c: Code, g: Graph, all: set<Pair>, e: (nat, nat), p: Pair)
    requires GraphOk(g) && Connected(g) && e in g.edges && p in AliveSet(c, g, all, e.1)
    ensures p in Replay(c, g.runs[e.0], AliveSet(c, g, all, e.0))
  {
    var run := g.runs[e.0];
    ReplayExact(c, run, AliveSet(c, g, all, e.0), p);
    if !Alive(c, run, p) {
      forall path | Leads(g, path, e.0)
        ensures Alive(c, Trace(g, path), p) && KeptBy(c, run, p)
      {
        Extended(g, path, e);
        assert Alive(c, Trace(g, path + [e.1]), p);
        AliveApp(c, Trace(g, path), run, p);
      }
      assert AliveOnAll(c, g, e.0, p) && Reached(g, e.0);
    }
  }

  lemma AliveSolution(c: Code, g: Graph, all: set<Pair>)
    requires GraphOk(g) && Connected(g)
    ensures Solution(c, g, AliveSets(c, g, all)) && Within(AliveSets(c, g, all), all)
  {
    var other := AliveSets(c, g, all);
    forall p ensures p !in other[g.entry] {
      assert Leads(g, [g.entry], g.entry) && Trace(g, [g.entry]) == [] && !Alive(c, [], p);
    }
    forall e | e in g.edges ensures other[e.1] <= Replay(c, g.runs[e.0], other[e.0]) {
      forall p | p in other[e.1] ensures p in Replay(c, g.runs[e.0], other[e.0]) { AliveEdge(c, g, all, e, p); }
    }
  }

  /** The analysis is exact: a pair is available at a node if and only if, on every path to it, the pair was
      generated and then neither clobbered nor pruned. */
  lemma Exactly(c: Code, g: Graph, all: set<Pair>, ins: seq<set<Pair>>, n: nat, p: Pair)
    requires GraphOk(g) && Connected(g) && Greatest(c, g, all, ins) && n < |g.runs| && p in all
    ensures p in ins[n] <==> AliveOnAll(c, g, n, p)
  {
    if p in ins[n] {
      forall path | Leads(g, path, n) ensures Alive(c, Trace(g, path), p) { SolutionAlive(c, g, ins, path, p); }
    }
    if AliveOnAll(c, g, n, p) {
      AliveSolution(c, g, all);
      assert Below(AliveSets(c, g, all), ins);
      assert p in AliveSets(c, g, all)[n];
    }
  }

  // ----- queries inside a run -----

  predicate PlainLoad(c: Code, i: nat) { c.reading(i) && !c.sideEffects(i) && c.stored(i) == None }

  predicate ConstStore(c: Code, i: nat) { !c.reading(i) && c.stored(i) == None }

  ghost predicate NoPruning(c: Code, run: seq<nat>) { forall i, s :: 0 <= i < |run| ==> !c.past(run[i], s) }

  /** A run of loads answers a query about a value defined before the instruction as if the instruction
      were a point of its own. */
  lemma {:induction false} LoadRun(c: Code, run: seq<nat>, e: set<Pair>, i: nat, p: Pair)
    requires (forall j :: 0 <= j < |run| ==> PlainLoad(c, run[j])) && NoPruning(c, run)
    requires i <= |run| && forall j :: i <= j < |run| ==> run[j] != p.expr
    ensures p in Replay(c, run, e) <==> p in Replay(c, run[..i], e)
    decreases |run|
  {
    if i == |run| {
      assert run[..i] == run;
    } else {
      var n := |run| - 1;
      LoadRun(c, run[..n], e, i, p);
      assert run[..n][..i] == run[..i];
      assert PlainLoad(c, run[n]) && !Kills(c, run[n], p) && !Prunes(c, run[n], p);
    }
  }

  /** A run of stores of constants answers with less. */
  lemma {:induction false} ConstStoreRun(c: Code, run: seq<nat>, e: set<Pair>, i: nat)
    requires forall j :: 0 <= j < |run| ==> ConstStore(c, run[j])
    requires i <= |run|
    ensures Replay(c, run, e) <= Replay(c, run[..i], e)
    decreases |run|
  {
    if i == |run| {
      assert run[..i] == run;
    } else {
      var n := |run| - 1;
      ConstStoreRun(c, run[..n], e, i);
      assert run[..n][..i] == run[..i];
      assert ConstStore(c, run[n]);
    }
  }

  // ----- finding the runs of a block -----

  datatype Kind = Ordinary | Load | Const

  /** Only the last instruction of a run of loads or constant stores is a program point. */
  predicate LastOfRun(kinds: seq<Kind>, i: nat)
    requires i < |kinds|
  {
    kinds[i] != Ordinary && (i + 1 == |kinds| || kinds[i + 1] != kinds[i])
  }

  /** The run that ends at program point `last`: the longest stretch of its kind. */
  method FindRun(kinds: seq<Kind>, last: nat) returns (first: nat)
    requires last < |kinds| && LastOfRun(kinds, last)
    ensures first <= last && forall j :: first <= j <= last ==> kinds[j] == kinds[last]
    ensures forall j :: first <= j < last ==> !LastOfRun(kinds, j)
    ensures first == 0 || kinds[first - 1] != kinds[last]
  {
    first := last;
    while first > 0 && kinds[first - 1] == kinds[last] && !LastOfRun(kinds, first - 1)
      invariant first <= last && forall j :: first <= j <= last ==> kinds[j] == kinds[last]
      invariant forall j :: first <= j < last ==> !LastOfRun(kinds, j)
    {
      first := first - 1;
    }
  }
}
