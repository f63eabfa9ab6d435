/** The order in which C type declarations and definitions are emitted. */
module EmissionOrder {
  import opened Wrappers

  // ----- types -----

  datatype Type = Prim | Ptr(to: Type) | Arr(elem: Type) | Def(id: nat)

  datatype Definition =
      | Class(fields: seq<Type>) | Enum(under: Type) | Typedef(under: Type) | Function(ret: Type, args: seq<Type>)

  type Table = seq<Definition>

  predicate KnownType(defs: Table, t: Type) {
    match t
    case Prim => true
    case Ptr(x) => KnownType(defs, x)
    case Arr(x) => KnownType(defs, x)
    case Def(i) => i < |defs|
  }

  /** The types that a definition mentions. */
  function Parts(d: Definition): seq<Type> {
    match d case Class(fs) => fs case Enum(u) => [u] case Typedef(u) => [u] case Function(r, args) => [r] + args
  }

  /** The type without its arrays. */
  function Element(t: Type): (e: Type)
    ensures !e.Arr?
  {
    if t.Arr? then Element(t.elem) else t
  }

  /** All named types exist, and chains of typedefs end; `depth` witnesses it. */
  ghost predicate TableOk(defs: Table, depth: nat -> nat) {
    && (forall i, t :: 0 <= i < |defs| && t in Parts(defs[i]) ==> KnownType(defs, t))
    && forall i :: 0 <= i < |defs| && defs[i].Typedef? && Element(defs[i].under).Def? ==>
        depth(Element(defs[i].under).id) < depth(i)
  }

  predicate Separate(defs: Table, i: nat)
    requires i < |defs|
  {
    defs[i].Class? || defs[i].Enum?
  }

  /** `unwrapTypedefs` */
  function Unwrap(defs: Table, ghost depth: nat -> nat, t: Type): (u: Type)
    requires TableOk(defs, depth) && KnownType(defs, t)
    ensures KnownType(defs, u)
    decreases if t.Def? then depth(t.id) + 1 else 0
  {
    if t.Def? && defs[t.id].Typedef? then
      assert defs[t.id].under in Parts(defs[t.id]);
      Unwrap(defs, depth, defs[t.id].under)
    else t
  }

  // ----- the dependency graph -----

  datatype Node = Decl(id: nat) | Body(id: nat)

  predicate IsNode(defs: Table, n: Node) { n.id < |defs| && (n.Body? ==> Separate(defs, n.id)) }

  /** The node whose printing needs the parts of definition `i`. */
  function Dependent(defs: Table, i: nat): Node
    requires i < |defs|
  {
    if Separate(defs, i) then Body(i) else Decl(i)
  }

  datatype Specifier = Specifier(target: Option<nat>, pointer: bool, lastArray: bool)

  function Specify(t: Type, pointer: bool, lastArray: bool): Specifier {
    match t
    case Prim => Specifier(None, pointer, lastArray)
    case Ptr(x) => Specify(x, true, false)
    case Arr(x) => Specify(x, pointer, true)
    case Def(i) => Specifier(Some(i), pointer, lastArray)
  }

  method UnwrapType(t: Type) returns (r: Specifier)
    ensures r == Specify(t, false, false)
  {
    var cur, pointer, lastArray := t, false, false;
    while cur.Ptr? || cur.Arr?
      invariant Specify(cur, pointer, lastArray) == Specify(t, false, false)
      decreases cur
    {
      if cur.Ptr? {
        pointer, lastArray, cur := true, false, cur.to;
      } else {
        lastArray, cur := true, cur.elem;
      }
    }
    r := Specifier(if cur.Def? then Some(cur.id) else None, pointer, lastArray);
  }

  /** The node `n` on which a definition depends through its part `t`; `full` says whether the definition
      has a body of its own. */
  ghost predicate Through(defs: Table, depth: nat -> nat, full: bool, t: Type, n: Node)
    requires TableOk(defs, depth) && KnownType(defs, t)
  {
    var s := Specify(t, false, false);
    s.target.Some? && s.target.value < |defs| &&
    var x := s.target.value;
    if s.lastArray then n == Dependent(defs, x)
    else if s.pointer then n == Decl(x)
    else
      || n == Decl(x)
      || (full && Separate(defs, x) && n == Body(x))
      || (full && defs[x].Typedef? && Unwrap(defs, depth, Def(x)).Def? && Separate(defs, Unwrap(defs, depth, Def(x)).id)
          && n == Body(Unwrap(defs, depth, Def(x)).id))
  }

  /** The node `b` is needed for some part of definition `i`. */
  ghost predicate DependsOn(defs: Table, depth: nat -> nat, i: nat, b: Node)
    requires TableOk(defs, depth) && i < |defs|
  {
    exists t :: t in Parts(defs[i]) && KnownType(defs, t) && Through(defs, depth, Separate(defs, i), t, b)
  }

  ghost predicate Edge(defs: Table, depth: nat -> nat, a: Node, b: Node)
    requires TableOk(defs, depth)
  {
    IsNode(defs, a) &&
    ((a.Body? && b == Decl(a.id)) || (a == Dependent(defs, a.id) && DependsOn(defs, depth, a.id, b)))
  }

  // ----- emission -----

  /** The successors of every node. */
  type Graph = map<Node, seq<Node>>

  ghost predicate GraphOk(g: Graph, rank: Node -> nat) {
    forall n, m :: n in g && m in g[n] ==> m in g && rank(m) < rank(n)
  }

  predicate NoDup(out: seq<Node>) { forall i, j :: 0 <= i < j < |out| ==> out[i] != out[j] }

  /** Everything a node depends on comes before it. */
  ghost predicate Ordered(g: Graph, out: seq<Node>) {
    forall i, m :: 0 <= i < |out| && out[i] in g && m in g[out[i]] ==> m in out[..i]
  }

  lemma OrderedSnoc(g: Graph, out: seq<Node>, n: Node)
    requires Ordered(g, out) && NoDup(out) && n !in out && n in g && forall m :: m in g[n] ==> m in out
    ensures Ordered(g, out + [n]) && NoDup(out + [n])
  {
    var new_ := out + [n];
    forall i, m | 0 <= i < |new_| && new_[i] in g && m in g[new_[i]]
      ensures m in new_[..i]
    {
      assert new_[..i] == out[..i];
      if i < |out| { assert new_[i] == out[i]; } else { assert out[..i] == out; }
    }
  }

  // ----- the order of a post-order visit -----

  /** What is printed after a visit from `n`, when `out` was printed before. */
  ghost function Visited(g: Graph, rank: Node -> nat, n: Node, out: seq<Node>): seq<Node>
    requires GraphOk(g, rank) && n in g
    decreases rank(n) + 1, 0
  {
    if n in out then out else VisitedAll(g, rank, rank(n), g[n], out) + [n]
  }

  /** The same for visits from several nodes, all of which rank below `r`. */
  ghost function VisitedAll(g: Graph, rank: Node -> nat, r: nat, ns: seq<Node>, out: seq<Node>): seq<Node>
    requires GraphOk(g, rank) && forall n :: n in ns ==> n in g && rank(n) < r
    decreases r, |ns| + 1
  {
    if ns == [] then out
    else Visited(g, rank, ns[|ns| - 1], VisitedAll(g, rank, r, ns[..|ns| - 1], out))
  }

  predicate IsRoot(g: Graph, n: Node) { forall m :: m in g ==> n !in g[m] }

  /** Visits from all nodes in turn, or from those on which nothing depends. */
  ghost function VisitedFrom(g: Graph, rank: Node -> nat, roots: bool, ns: seq<Node>, out: seq<Node>): seq<Node>
    requires GraphOk(g, rank) && forall n :: n in ns ==> n in g
  {
    if ns == [] then out
    else
      var n, before := ns[|ns| - 1], VisitedFrom(g, rank, roots, ns[..|ns| - 1], out);
      if roots && !IsRoot(g, n) then before else Visited(g, rank, n, before)
  }

  ghost function VisitOrder(g: Graph, rank: Node -> nat, nodes: seq<Node>): seq<Node>
    requires GraphOk(g, rank) && forall n :: n in nodes ==> n in g
  {
    VisitedFrom(g, rank, false, nodes, VisitedFrom(g, rank, true, nodes, []))
  }

  lemma VisitedNext(g: Graph, rank: Node -> nat, r: nat, ns: seq<Node>, i: nat, out: seq<Node>)
    requires GraphOk(g, rank) && (forall n :: n in ns ==> n in g && rank(n) < r) && i < |ns|
    ensures VisitedAll(g, rank, r, ns[..i + 1], out) == Visited(g, rank, ns[i], VisitedAll(g, rank, r, ns[..i], out))
  {
    assert ns[..i + 1][..i] == ns[..i] && ns[..i + 1][i] == ns[i];
  }

  lemma VisitedNextFrom(g: Graph, rank: Node -> nat, roots: bool, ns: seq<Node>, i: nat, out: seq<Node>)
    requires GraphOk(g, rank) && (forall n :: n in ns ==> n in g) && i < |ns|
    ensures var before := VisitedFrom(g, rank, roots, ns[..i], out);
            VisitedFrom(g, rank, roots, ns[..i + 1], out)
            == if roots && !IsRoot(g, ns[i]) then before else Visited(g, rank, ns[i], before)
  {
    assert ns[..i + 1][..i] == ns[..i] && ns[..i + 1][i] == ns[i];
  }

  class Emitter {
    const g: Graph
    ghost const rank: Node -> nat
    var emitted: set<Node>
    var out: seq<Node>

    constructor (g: Graph, ghost rank: Node -> nat)
      requires GraphOk(g, rank)
      ensures this.g == g && this.rank == rank && Valid() && emitted == {} && out == []
    {
      this.g, this.rank := g, rank;
      emitted, out := {}, [];
    }

    /** What is printed is in order; what is visited but not printed is still being worked on. */
    ghost predicate Valid()
      reads this
    {
      && GraphOk(g, rank) && Ordered(g, out) && NoDup(out)
      && (forall n :: n in out ==> n in emitted) && emitted <= g.Keys
    }

    ghost function Open(): set<Node>
      reads this
    {
      set n | n in emitted && n !in out
    }

    /** A post-order visit from `n`; open nodes are the ones below which it started. */
    method EmitTree(n: Node)
      requires Valid() && n in g && forall m :: m in Open() ==> rank(m) > rank(n)
      modifies this
      ensures Valid() && Open() == old(Open()) && n in out && old(out) <= out && old(emitted) <= emitted
      ensures out == Visited(g, rank, n, old(out))
      decreases rank(n), 1
    {
      if n in emitted {
        assert n !in Open();
        return;
      }
      emitted := emitted + {n};
      assert Open() == old(Open()) + {n};
      EmitSuccessors(n);
      assert n in Open();
      OrderedSnoc(g, out, n);
      out := out + [n];
    }

    method EmitSuccessors(n: Node)
      requires Valid() && n in g && n in Open() && forall m :: m in Open() ==> rank(m) >= rank(n)
      modifies this
      ensures Valid() && Open() == old(Open()) && old(out) <= out && old(emitted) <= emitted
      ensures (forall m :: m in g[n] ==> m in out) && out == VisitedAll(g, rank, rank(n), g[n], old(out))
      decreases rank(n), 0
    {
      var succ := g[n];
      var i := 0;
      while i < |succ|
        invariant 0 <= i <= |succ| && Valid() && Open() == old(Open()) && old(out) <= out && old(emitted) <= emitted
        invariant forall j :: 0 <= j < i ==> succ[j] in out
        invariant out == VisitedAll(g, rank, rank(n), succ[..i], old(out))
      {
        VisitedNext(g, rank, rank(n), succ, i, old(out));
        EmitTree(succ[i]);
        i := i + 1;
      }
      assert succ[..|succ|] == succ;
    }

    /** From the nodes on which nothing depends. */
    method EmitRoots(nodes: seq<Node>)
      requires Valid() && Open() == {} && forall n :: n in nodes ==> n in g
      modifies this
      ensures Valid() && Open() == {} && out == VisitedFrom(g, rank, true, nodes, old(out))
    {
      var i := 0;
      while i < |nodes|
        invariant 0 <= i <= |nodes| && Valid() && Open() == {}
        invariant out == VisitedFrom(g, rank, true, nodes[..i], old(out))
      {
        VisitedNextFrom(g, rank, true, nodes, i, old(out));
        if IsRoot(g, nodes[i]) { EmitTree(nodes[i]); }
        i := i + 1;
      }
      assert nodes[..|nodes|] == nodes;
    }

    method EmitAll(nodes: seq<Node>)
      requires Valid() && Open() == {} && forall n :: n in nodes ==> n in g
      modifies this
      ensures Valid() && Open() == {} && out == VisitedFrom(g, rank, false, nodes, old(out))
      ensures forall n :: n in nodes ==> n in out
    {
      var i := 0;
      while i < |nodes|
        invariant 0 <= i <= |nodes| && Valid() && Open() == {}
        invariant out == VisitedFrom(g, rank, false, nodes[..i], old(out))
        invariant forall j :: 0 <= j < i ==> nodes[j] in out
      {
        VisitedNextFrom(g, rank, false, nodes, i, old(out));
        EmitTree(nodes[i]);
        i := i + 1;
      }
      assert nodes[..|nodes|] == nodes;
    }

    /** First from the nodes on which nothing depends, then from all others. */
    method EmitGraph(nodes: seq<Node>)
      requires Valid() && emitted == {} && out == [] && forall n :: n in nodes <==> n in g
      modifies this
      ensures Valid() && (forall n :: n in g <==> n in out) && out == VisitOrder(g, rank, nodes)
    {
      assert Open() == {};
      EmitRoots(nodes);
      EmitAll(nodes);
    }
  }

  /** Every node exactly once, after everything it depends on. */
  method EmitTypeGraph(g: Graph, nodes: seq<Node>, ghost rank: Node -> nat) returns (out: seq<Node>)
    requires GraphOk(g, rank) && forall n :: n in nodes <==> n in g
    ensures NoDup(out) && Ordered(g, out) && forall n :: n in g <==> n in out
    ensures out == VisitOrder(g, rank, nodes)
  {
    var e := new Emitter(g, rank);
    assert e.Open() == {};
    e.EmitGraph(nodes);
    out := e.out;
  }

  // ----- building the graph -----

  lemma {:induction false} TargetKnown(defs: Table, t: Type, pointer: bool, lastArray: bool)
    requires KnownType(defs, t)
    ensures Specify(t, pointer, lastArray).target.Some? ==> Specify(t, pointer, lastArray).target.value < |defs|
  {
    match t
    case Ptr(x) => TargetKnown(defs, x, true, false);
    case Arr(x) => TargetKnown(defs, x, pointer, true);
    case _ =>
  }

  /** The nodes on which definition `i` depends through its part `t`, in the order in which they are found. */
  function PartNodes(defs: Table, ghost depth: nat -> nat, i: nat, t: Type): (ns: seq<Node>)
    requires TableOk(defs, depth) && i < |defs| && KnownType(defs, t)
    ensures forall n :: n in ns <==> Through(defs, depth, Separate(defs, i), t, n)
  {
    TargetKnown(defs, t, false, false);
    var s := Specify(t, false, false);
    if s.target.None? then []
    else if s.lastArray then [Dependent(defs, s.target.value)]
    else
      var x := s.target.value;
      if s.pointer || !Separate(defs, i) then [Decl(x)]
      else if Separate(defs, x) then [Decl(x), Body(x)]
      else if defs[x].Typedef? && Unwrap(defs, depth, Def(x)).Def? && Separate(defs, Unwrap(defs, depth, Def(x)).id)
      then [Decl(x), Body(Unwrap(defs, depth, Def(x)).id)]
      else [Decl(x)]
  }

  method AddDependenciesFrom(defs: Table, ghost depth: nat -> nat, i: nat, t: Type) returns (ns: seq<Node>)
    requires TableOk(defs, depth) && i < |defs| && KnownType(defs, t)
    ensures ns == PartNodes(defs, depth, i, t)
    ensures forall n :: n in ns <==> Through(defs, depth, Separate(defs, i), t, n)
  {
    var s := UnwrapType(t);
    TargetKnown(defs, t, false, false);
    if s.target.None? { return []; }
    var x := s.target.value;
    if s.lastArray {
      ns := [if Separate(defs, x) then Body(x) else Decl(x)];
    } else if s.pointer {
      ns := [Decl(x)];
    } else {
      ns := [Decl(x)];
      if Separate(defs, i) && Separate(defs, x) { ns := ns + [Body(x)]; }
      if Separate(defs, i) && defs[x].Typedef? {
        var u := Unwrap(defs, depth, Def(x));
        if u.Def? && Separate(defs, u.id) { ns := ns + [Body(u.id)]; }
      }
    }
  }

  /** The first `k` lists, one after the other. */
  function Flatten(xs: seq<seq<Node>>, k: nat): seq<Node>
    requires k <= |xs|
  {
    if k == 0 then [] else Flatten(xs, k - 1) + xs[k - 1]
  }

  lemma {:induction false} FlattenMembers(xs: seq<seq<Node>>, k: nat, n: Node)
    requires k <= |xs|
    ensures n in Flatten(xs, k) <==> exists j :: 0 <= j < k && n in xs[j]
  {
    if k > 0 { FlattenMembers(xs, k - 1, n); }
  }

  /** The nodes found through each part. */
  function PartLists(defs: Table, ghost depth: nat -> nat, i: nat): (xs: seq<seq<Node>>)
    requires TableOk(defs, depth) && i < |defs|
    ensures |xs| == |Parts(defs[i])|
  {
    var parts := Parts(defs[i]);
    assert forall j :: 0 <= j < |parts| ==> parts[j] in parts;
    seq(|parts|, j requires 0 <= j < |parts| => PartNodes(defs, depth, i, parts[j]))
  }

  function PartsNodes(defs: Table, ghost depth: nat -> nat, i: nat): seq<Node>
    requires TableOk(defs, depth) && i < |defs|
  {
    Flatten(PartLists(defs, depth, i), |Parts(defs[i])|)
  }

  /** All dependencies of definition `i`. */
  method AddDependencies(defs: Table, ghost depth: nat -> nat, i: nat) returns (ns: seq<Node>)
    requires TableOk(defs, depth) && i < |defs|
    ensures ns == PartsNodes(defs, depth, i)
    ensures forall n :: n in ns <==> DependsOn(defs, depth, i, n)
  {
    var parts := Parts(defs[i]);
    ghost var lists := PartLists(defs, depth, i);
    ns := [];
    var k := 0;
    while k < |parts|
      invariant 0 <= k <= |parts| && ns == Flatten(lists, k)
    {
      assert parts[k] in parts;
      var more := AddDependenciesFrom(defs, depth, i, parts[k]);
      ns := ns + more;
      k := k + 1;
    }
    forall n ensures n in ns <==> DependsOn(defs, depth, i, n) { PartsNodesEdge(defs, depth, i, n); }
  }

  /** The nodes of definition `i`, whose parts depend on `ns`. */
  function WithNodes(defs: Table, g: Graph, i: nat, ns: seq<Node>): Graph
    requires i < |defs|
  {
    if Separate(defs, i) then g[Decl(i) := []][Body(i) := [Decl(i)] + ns] else g[Decl(i) := ns]
  }

  /** The graph of the first `i` definitions, when `deps` are the dependencies of all definitions. */
  function GraphFrom(defs: Table, deps: seq<seq<Node>>, i: nat): Graph
    requires i <= |defs| == |deps|
  {
    if i == 0 then map[] else WithNodes(defs, GraphFrom(defs, deps, i - 1), i - 1, deps[i - 1])
  }

  function Dependencies(defs: Table, ghost depth: nat -> nat): (deps: seq<seq<Node>>)
    requires TableOk(defs, depth)
    ensures |deps| == |defs|
  {
    seq(|defs|, j requires 0 <= j < |defs| => PartsNodes(defs, depth, j))
  }

  function GraphOf(defs: Table, ghost depth: nat -> nat): Graph
    requires TableOk(defs, depth)
  {
    GraphFrom(defs, Dependencies(defs, depth), |defs|)
  }

  function NodesOf(defs: Table, i: nat): seq<Node>
    requires i <= |defs|
  {
    if i == 0 then []
    else NodesOf(defs, i - 1) + if Separate(defs, i - 1) then [Decl(i - 1), Body(i - 1)] else [Decl(i - 1)]
  }

  lemma PartsNodesEdge(defs: Table, depth: nat -> nat, i: nat, m: Node)
    requires TableOk(defs, depth) && i < |defs|
    ensures m in PartsNodes(defs, depth, i) <==> DependsOn(defs, depth, i, m)
  {
    var parts, lists := Parts(defs[i]), PartLists(defs, depth, i);
    FlattenMembers(lists, |parts|, m);
    if j :| 0 <= j < |parts| && m in lists[j] {
      assert parts[j] in parts;
    }
    if DependsOn(defs, depth, i, m) {
      var t :| t in parts && KnownType(defs, t) && Through(defs, depth, Separate(defs, i), t, m);
      var j :| 0 <= j < |parts| && parts[j] == t;
      assert m in lists[j];
    }
  }

  lemma EdgeCases(defs: Table, depth: nat -> nat, n: Node, m: Node)
    requires TableOk(defs, depth) && IsNode(defs, n)
    ensures Edge(defs, depth, n, m) <==>
            (n.Body? && m == Decl(n.id)) || (n == Dependent(defs, n.id) && DependsOn(defs, depth, n.id, m))
  {}

  lemma {:induction false} GraphKeys(defs: Table, deps: seq<seq<Node>>, i: nat, n: Node)
    requires i <= |defs| == |deps|
    ensures n in GraphFrom(defs, deps, i) <==> IsNode(defs, n) && n.id < i
    ensures n in NodesOf(defs, i) <==> IsNode(defs, n) && n.id < i
  {
    if i > 0 { GraphKeys(defs, deps, i - 1, n); }
  }

  lemma {:induction false} GraphEdges(defs: Table, deps: seq<seq<Node>>, i: nat, n: Node, m: Node)
    requires i <= |defs| == |deps| && IsNode(defs, n) && n.id < i
    ensures n in GraphFrom(defs, deps, i)
    ensures m in GraphFrom(defs, deps, i)[n] <==>
            (n.Body? && m == Decl(n.id)) || (n == Dependent(defs, n.id) && m in deps[n.id])
  {
    GraphKeys(defs, deps, i, n);
    if n.id < i - 1 { GraphEdges(defs, deps, i - 1, n, m); }
  }

  lemma GraphRepresents(defs: Table, depth: nat -> nat)
    requires TableOk(defs, depth)
    ensures Represents(GraphOf(defs, depth), defs, depth)
    ensures forall n :: n in NodesOf(defs, |defs|) <==> n in GraphOf(defs, depth)
  {
    var g, deps := GraphOf(defs, depth), Dependencies(defs, depth);
    forall n ensures (n in g <==> IsNode(defs, n)) && (n in NodesOf(defs, |defs|) <==> n in g) {
      GraphKeys(defs, deps, |defs|, n);
    }
    forall n, m | n in g ensures m in g[n] <==> Edge(defs, depth, n, m) {
      GraphEdges(defs, deps, |defs|, n, m);
      PartsNodesEdge(defs, depth, n.id, m);
      EdgeCases(defs, depth, n, m);
    }
  }

  /** The nodes of one definition. */
  method AddNodes(defs: Table, g0: Graph, nodes0: seq<Node>, i: nat, ns: seq<Node>) returns (g: Graph, nodes: seq<Node>)
    requires i < |defs|
    ensures g == WithNodes(defs, g0, i, ns)
    ensures nodes == nodes0 + if Separate(defs, i) then [Decl(i), Body(i)] else [Decl(i)]
  {
    if Separate(defs, i) {
      g := g0[Decl(i) := []][Body(i) := [Decl(i)] + ns];
      nodes := nodes0 + [Decl(i), Body(i)];
    } else {
      g := g0[Decl(i) := ns];
      nodes := nodes0 + [Decl(i)];
    }
  }

  method AddDefinition(defs: Table, ghost depth: nat -> nat, g0: Graph, nodes0: seq<Node>, i: nat)
    returns (g: Graph, nodes: seq<Node>)
    requires TableOk(defs, depth) && i < |defs|
    ensures g == WithNodes(defs, g0, i, Dependencies(defs, depth)[i])
    ensures nodes == nodes0 + if Separate(defs, i) then [Decl(i), Body(i)] else [Decl(i)]
  {
    var ns := AddDependencies(defs, depth, i);
    g, nodes := AddNodes(defs, g0, nodes0, i, ns);
  }

  /** A declaration node for every type, a body node for every class and enum, and their edges. */
  method BuildGraph(defs: Table, ghost depth: nat -> nat) returns (g: Graph, nodes: seq<Node>)
    requires TableOk(defs, depth)
    ensures g == GraphOf(defs, depth) && nodes == NodesOf(defs, |defs|)
    ensures Represents(g, defs, depth) && forall n :: n in nodes <==> n in g
  {
    g, nodes := map[], [];
    ghost var deps := Dependencies(defs, depth);
    var i := 0;
    while i < |defs|
      invariant 0 <= i <= |defs| && g == GraphFrom(defs, deps, i) && nodes == NodesOf(defs, i)
    {
      g, nodes := AddDefinition(defs, depth, g, nodes, i);
      i := i + 1;
    }
    GraphRepresents(defs, depth);
  }

  // ----- class bodies -----

  /** The graph of a table of types. */
  ghost predicate Represents(g: Graph, defs: Table, depth: nat -> nat)
    requires TableOk(defs, depth)
  {
    && (forall n :: n in g <==> IsNode(defs, n))
    && forall n, m :: n in g ==> (m in g[n] <==> Edge(defs, depth, n, m))
  }

  ghost predicate Precedes(out: seq<Node>, a: Node, b: Node) {
    exists i, j :: 0 <= i < j < |out| && out[i] == a && out[j] == b
  }

  lemma PrecedesTrans(out: seq<Node>, a: Node, b: Node, c: Node)
    requires NoDup(out) && Precedes(out, a, b) && Precedes(out, b, c)
    ensures Precedes(out, a, c)
  {
    var i, j :| 0 <= i < j < |out| && out[i] == a && out[j] == b;
    var k, l :| 0 <= k < l < |out| && out[k] == b && out[l] == c;
    assert j == k;
  }

  /** An emission of the whole graph. */
  ghost predicate Emission(defs: Table, depth: nat -> nat, g: Graph, out: seq<Node>)
    requires TableOk(defs, depth)
  {
    Represents(g, defs, depth) && NoDup(out) && Ordered(g, out) && forall n :: n in g <==> n in out
  }

  lemma EdgePrecedes(defs: Table, depth: nat -> nat, g: Graph, out: seq<Node>, a: Node, b: Node)
    requires TableOk(defs, depth) && Emission(defs, depth, g, out) && Edge(defs, depth, a, b)
    ensures Precedes(out, b, a)
  {
    assert a in g && b in g[a];
    var j :| 0 <= j < |out| && out[j] == a;
    assert b in out[..j];
    var i :| 0 <= i < j && out[..j][i] == b;
    assert out[i] == b;
  }

  predicate IsClass(defs: Table, t: Type, d: nat) { t == Def(d) && d < |defs| && defs[d].Class? }

  predicate IsTypedef(defs: Table, t: Type) { t.Def? && t.id < |defs| && defs[t.id].Typedef? }

  /** A value of type `t` holds a value of class `d`. */
  ghost predicate Held(defs: Table, depth: nat -> nat, t: Type, d: nat)
    requires TableOk(defs, depth) && KnownType(defs, t)
    decreases if Element(t).Def? then depth(Element(t).id) + 1 else 0
  {
    var e := Element(t);
    IsClass(defs, e, d) || (IsTypedef(defs, e) && KnownUnder(defs, depth, e.id)
        && Held(defs, depth, defs[e.id].under, d))
  }

  ghost predicate KnownUnder(defs: Table, depth: nat -> nat, i: nat)
    requires TableOk(defs, depth) && i < |defs| && defs[i].Typedef?
    ensures KnownUnder(defs, depth, i) && KnownType(defs, defs[i].under)
  {
    assert defs[i].under in Parts(defs[i]);
    KnownType(defs, defs[i].under)
  }

  /** Behind the last array, the class is named through a typedef; `arr` and `td` say what came before. */
  ghost predicate Hidden(defs: Table, depth: nat -> nat, t: Type, arr: bool, td: bool)
    requires TableOk(defs, depth) && KnownType(defs, t)
    decreases if Element(t).Def? then depth(Element(t).id) + 1 else 0
  {
    var e := Element(t);
    var a, b := arr || t.Arr?, td && !t.Arr?;
    if IsTypedef(defs, e) && KnownUnder(defs, depth, e.id) then Hidden(defs, depth, defs[e.id].under, a, true)
    else a && b
  }

  lemma {:induction false} KnownElement(defs: Table, t: Type)
    requires KnownType(defs, t)
    ensures KnownType(defs, Element(t))
  {
    if t.Arr? { KnownElement(defs, t.elem); }
  }

  lemma {:induction false} SpecifyElement(t: Type, pointer: bool, lastArray: bool)
    requires Element(t).Def?
    ensures Specify(t, pointer, lastArray) == Specifier(Some(Element(t).id), pointer, lastArray || t.Arr?)
  {
    if t.Arr? { SpecifyElement(t.elem, pointer, true); }
  }

  /** The last typedef on the way to the class names an array of it. */
  ghost predicate DeclCovers(defs: Table, depth: nat -> nat, i: nat, d: nat)
    requires TableOk(defs, depth) && i < |defs| && defs[i].Typedef?
    decreases depth(i)
  {
    var u := defs[i].under;
    var e := Element(u);
    if IsTypedef(defs, e) then DeclCovers(defs, depth, e.id, d) else u.Arr? && IsClass(defs, e, d)
  }

  lemma {:induction false} DeclPrecedes(defs: Table, depth: nat -> nat, g: Graph, out: seq<Node>, i: nat, d: nat)
    requires TableOk(defs, depth) && Emission(defs, depth, g, out) && i < |defs| && defs[i].Typedef?
    requires DeclCovers(defs, depth, i, d)
    ensures Precedes(out, Body(d), Decl(i))
    decreases depth(i)
  {
    var u := defs[i].under;
    var e := Element(u);
    assert KnownUnder(defs, depth, i) && u in Parts(defs[i]);
    SpecifyElement(u, false, false);
    var n := if IsTypedef(defs, e) then Decl(e.id) else Body(d);
    assert Through(defs, depth, false, u, n);
    EdgePrecedes(defs, depth, g, out, Decl(i), n);
    if IsTypedef(defs, e) {
      DeclPrecedes(defs, depth, g, out, e.id, d);
      PrecedesTrans(out, Body(d), Decl(e.id), Decl(i));
    }
  }

  /** What a class needs of a field of type `t` that holds class `d`. */
  ghost predicate FieldCovers(defs: Table, depth: nat -> nat, t: Type, d: nat)
    requires TableOk(defs, depth) && KnownType(defs, t)
  {
    var e := Element(t);
    IsClass(defs, e, d) || (IsTypedef(defs, e)
        && (DeclCovers(defs, depth, e.id, d) || (!t.Arr? && IsClass(defs, Unwrap(defs, depth, t), d))))
  }

  lemma {:induction false} CoversHidden(defs: Table, depth: nat -> nat, i: nat, d: nat)
    requires TableOk(defs, depth) && i < |defs| && defs[i].Typedef? && KnownUnder(defs, depth, i)
    requires Held(defs, depth, defs[i].under, d)
    ensures DeclCovers(defs, depth, i, d) <==> !Hidden(defs, depth, defs[i].under, true, true)
    ensures DeclCovers(defs, depth, i, d) || IsClass(defs, Unwrap(defs, depth, Def(i)), d) <==>
        !Hidden(defs, depth, defs[i].under, false, true)
    decreases depth(i)
  {
    var u := defs[i].under;
    var e := Element(u);
    if IsTypedef(defs, e) {
      assert KnownUnder(defs, depth, e.id);
      CoversHidden(defs, depth, e.id, d);
    }
  }

  /** The dependencies reach the body of a class held by a field exactly when no typedef names it behind
      the last array. */
  lemma CoversExactly(defs: Table, depth: nat -> nat, t: Type, d: nat)
    requires TableOk(defs, depth) && KnownType(defs, t) && Held(defs, depth, t, d)
    ensures FieldCovers(defs, depth, t, d) <==> !Hidden(defs, depth, t, false, false)
  {
    var e := Element(t);
    if IsTypedef(defs, e) {
      assert KnownUnder(defs, depth, e.id);
      CoversHidden(defs, depth, e.id, d);
    }
  }

  /** A class body comes after its declaration and after the bodies of the classes it holds. */
  lemma BodiesInOrder(defs: Table, depth: nat -> nat, g: Graph, out: seq<Node>, c: nat, t: Type, d: nat)
    requires TableOk(defs, depth) && Emission(defs, depth, g, out) && c < |defs| && defs[c].Class?
    requires t in defs[c].fields && KnownType(defs, t) && Held(defs, depth, t, d)
    requires !Hidden(defs, depth, t, false, false)
    ensures Precedes(out, Decl(c), Body(c)) && Precedes(out, Body(d), Body(c))
  {
    EdgePrecedes(defs, depth, g, out, Body(c), Decl(c));
    CoversExactly(defs, depth, t, d);
    var e := Element(t);
    SpecifyElement(t, false, false);
    assert t in Parts(defs[c]);
    if IsTypedef(defs, e) && DeclCovers(defs, depth, e.id, d) {
      assert Through(defs, depth, true, t, Decl(e.id));
      EdgePrecedes(defs, depth, g, out, Body(c), Decl(e.id));
      DeclPrecedes(defs, depth, g, out, e.id, d);
      PrecedesTrans(out, Body(d), Decl(e.id), Body(c));
    } else {
      assert Through(defs, depth, true, t, Body(d));
      EdgePrecedes(defs, depth, g, out, Body(c), Body(d));
    }
  }

  // ----- what a definition names is declared before -----

  /** The type `t` names the definition `x`, through pointers and arrays. */
  predicate Mentions(t: Type, x: nat) {
    match t case Prim => false case Ptr(u) => Mentions(u, x) case Arr(u) => Mentions(u, x) case Def(i) => i == x
  }

  /** The type is written in the definition. */
  predicate WrittenIn(d: Definition, t: Type) {
    match d
    case Class(fields) => t in fields
    case Enum(under) => t == under
    case Typedef(under) => t == under
    case Function(ret, args) => t == ret || t in args
  }

  /** An array of `x` is part of the type `t`, maybe behind pointers. */
  predicate ArrayOf(t: Type, x: nat) {
    match t case Ptr(u) => ArrayOf(u, x) case Arr(u) => Element(u) == Def(x) || ArrayOf(u, x) case _ => false
  }

  lemma {:induction false} MentionsTarget(t: Type, x: nat, pointer: bool, lastArray: bool)
    ensures var s := Specify(t, pointer, lastArray);
            && (Mentions(t, x) <==> s.target == Some(x))
            && (s.target == Some(x) && s.lastArray <==> ArrayOf(t, x) || (lastArray && Element(t) == Def(x)))
            && (s.target == Some(x) && !s.pointer && !s.lastArray ==> t == Def(x))
  {
    match t
    case Ptr(u) => MentionsTarget(u, x, true, false);
    case Arr(u) => MentionsTarget(u, x, pointer, true);
    case _ =>
  }

  /** Whatever a definition names is declared before it, and what it holds arrays of is defined in full. */
  lemma NamedBefore(defs: Table, depth: nat -> nat, g: Graph, out: seq<Node>, i: nat, t: Type, x: nat)
    requires TableOk(defs, depth) && Emission(defs, depth, g, out)
    requires i < |defs| && WrittenIn(defs[i], t) && Mentions(t, x)
    ensures x < |defs| && Precedes(out, Decl(x), Dependent(defs, i))
    ensures ArrayOf(t, x) ==> Precedes(out, Dependent(defs, x), Dependent(defs, i))
  {
    assert t in Parts(defs[i]) && KnownType(defs, t);
    TargetKnown(defs, t, false, false);
    MentionsTarget(t, x, false, false);
    var a := Dependent(defs, i);
    if Specify(t, false, false).lastArray {
      assert Through(defs, depth, Separate(defs, i), t, Dependent(defs, x));
      EdgePrecedes(defs, depth, g, out, a, Dependent(defs, x));
      if Separate(defs, x) {
        EdgePrecedes(defs, depth, g, out, Body(x), Decl(x));
        PrecedesTrans(out, Decl(x), Body(x), a);
      }
    } else {
      assert Through(defs, depth, Separate(defs, i), t, Decl(x));
      EdgePrecedes(defs, depth, g, out, a, Decl(x));
    }
  }

  // ----- what a definition does not need -----

  /** The definition `i` needs `x` before it: a typedef or function type that it names, or a class or enum of
      which it holds an array or, if it has a body of its own, a value. */
  ghost predicate Needs(defs: Table, depth: nat -> nat, i: nat, x: nat)
    requires TableOk(defs, depth) && i < |defs| && x < |defs|
  {
    exists t :: WrittenIn(defs[i], t) && NeedsFor(defs, depth, i, t, x)
  }

  ghost predicate NeedsFor(defs: Table, depth: nat -> nat, i: nat, t: Type, x: nat)
    requires TableOk(defs, depth) && i < |defs| && x < |defs|
  {
    if Separate(defs, x) then
      ArrayOf(t, x) || (Separate(defs, i) && t.Def? && KnownType(defs, t) && Unwrap(defs, depth, t) == Def(x))
    else Mentions(t, x)
  }

  function RankOf(defs: Table, f: nat -> nat, n: Node): nat {
    if n.id < |defs| && n == Dependent(defs, n.id) then f(n.id) + 1 else 0
  }

  /** Pointers to classes and enums never make a cycle: it is enough that needs are acyclic. */
  lemma PointersAreFree(defs: Table, depth: nat -> nat, f: nat -> nat, a: Node, b: Node)
    requires TableOk(defs, depth) && Edge(defs, depth, a, b)
    requires forall i: nat, x: nat :: i < |defs| && x < |defs| && Needs(defs, depth, i, x) ==> f(x) < f(i)
    ensures RankOf(defs, f, b) < RankOf(defs, f, a)
  {
    var i := a.id;
    if a == Dependent(defs, i) && DependsOn(defs, depth, i, b) {
      var t :| t in Parts(defs[i]) && KnownType(defs, t) && Through(defs, depth, Separate(defs, i), t, b);
      var x := Specify(t, false, false).target.value;
      MentionsTarget(t, x, false, false);
      if b == Dependent(defs, b.id) {
        assert NeedsFor(defs, depth, i, t, b.id);
        assert Needs(defs, depth, i, b.id);
      }
    }
  }

  lemma EdgeNode(defs: Table, depth: nat -> nat, a: Node, b: Node)
    requires TableOk(defs, depth) && Edge(defs, depth, a, b)
    ensures IsNode(defs, b)
  {}

  /** The order in which the graph of the table is visited. */
  ghost predicate Printed(defs: Table, depth: nat -> nat, rank: Node -> nat, out: seq<Node>)
    requires TableOk(defs, depth)
  {
    var g, nodes := GraphOf(defs, depth), NodesOf(defs, |defs|);
    GraphOk(g, rank) && (forall n :: n in nodes ==> n in g) && out == VisitOrder(g, rank, nodes)
  }

  /** Every declaration and body is printed after the declarations of what it names, and after the full
      definitions of what it holds arrays of. */
  ghost predicate NamesDeclared(defs: Table, out: seq<Node>) {
    forall i: nat, t, x: nat :: i < |defs| && WrittenIn(defs[i], t) && Mentions(t, x) ==>
      && x < |defs| && Precedes(out, Decl(x), Dependent(defs, i))
      && (ArrayOf(t, x) ==> Precedes(out, Dependent(defs, x), Dependent(defs, i)))
  }

  /** Class bodies come after the bodies of the classes that they hold by value, unless a typedef hides them. */
  ghost predicate HeldDefined(defs: Table, depth: nat -> nat, out: seq<Node>)
    requires TableOk(defs, depth)
  {
    forall c: nat, t, d: nat ::
      c < |defs| && defs[c].Class? && t in defs[c].fields && KnownType(defs, t) && Held(defs, depth, t, d)
          && !Hidden(defs, depth, t, false, false) ==>
        Precedes(out, Decl(c), Body(c)) && Precedes(out, Body(d), Body(c))
  }

  lemma EmissionInOrder(defs: Table, depth: nat -> nat, g: Graph, out: seq<Node>)
    requires TableOk(defs, depth) && Emission(defs, depth, g, out)
    ensures NamesDeclared(defs, out) && HeldDefined(defs, depth, out)
    ensures forall a, b :: Edge(defs, depth, a, b) ==> Precedes(out, b, a)
  {
    forall a, b | Edge(defs, depth, a, b) ensures Precedes(out, b, a) { EdgePrecedes(defs, depth, g, out, a, b); }
    forall i: nat, t, x: nat | i < |defs| && WrittenIn(defs[i], t) && Mentions(t, x)
      ensures x < |defs| && Precedes(out, Decl(x), Dependent(defs, i))
      ensures ArrayOf(t, x) ==> Precedes(out, Dependent(defs, x), Dependent(defs, i))
    {
      NamedBefore(defs, depth, g, out, i, t, x);
    }
    forall c: nat, t, d: nat | c < |defs| && defs[c].Class? && t in defs[c].fields && KnownType(defs, t)
        && Held(defs, depth, t, d) && !Hidden(defs, depth, t, false, false)
      ensures Precedes(out, Decl(c), Body(c)) && Precedes(out, Body(d), Body(c))
    {
      BodiesInOrder(defs, depth, g, out, c, t, d);
    }
  }

  /** The whole emission: if dependencies are acyclic, every declaration and body is printed once, after what it
      names, and class bodies come after what they hold. */
  method EmitTypes(defs: Table, ghost depth: nat -> nat, ghost rank: Node -> nat) returns (out: seq<Node>)
    requires TableOk(defs, depth) && forall a, b :: Edge(defs, depth, a, b) ==> rank(b) < rank(a)
    ensures Printed(defs, depth, rank, out)
    ensures NoDup(out) && forall n :: n in out <==> IsNode(defs, n)
    ensures forall i: nat :: Decl(i) in out <==> i < |defs|
    ensures forall i: nat :: Body(i) in out <==> i < |defs| && (defs[i].Class? || defs[i].Enum?)
    ensures forall a, b :: Edge(defs, depth, a, b) ==> Precedes(out, b, a)
    ensures NamesDeclared(defs, out) && HeldDefined(defs, depth, out)
  {
    var g, nodes := BuildGraph(defs, depth);
    forall n, m | n in g && m in g[n] ensures m in g && rank(m) < rank(n) { EdgeNode(defs, depth, n, m); }
    out := EmitTypeGraph(g, nodes, rank);
    EmissionInOrder(defs, depth, g, out);
  }

  // ----- an array of a typedef -----

  /** `struct S; typedef struct S U; struct T { U x[n]; };` with `T`, `U`, `S` numbered 0, 1, 2. */
  const ArrayOfTypedef: Table := [Class([Arr(Def(1))]), Typedef(Def(2)), Class([])]

  function ExampleDepth(i: nat): nat { if i == 1 then 1 else 0 }

  function ExampleRank(n: Node): nat { if n == Body(0) then 2 else if n == Decl(1) || n == Body(2) then 1 else 0 }

  const ExampleGraph: Graph :=
    map[Decl(0) := [], Body(0) := [Decl(0), Decl(1)], Decl(1) := [Decl(2)], Decl(2) := [], Body(2) := [Decl(2)]]

  const ExampleNodes := [Decl(0), Body(0), Decl(1), Decl(2), Body(2)]

  const ExampleOrder := [Decl(0), Decl(2), Decl(1), Body(0), Body(2)]

  lemma ExampleBuilt()
    ensures TableOk(ArrayOfTypedef, ExampleDepth)
    ensures GraphOf(ArrayOfTypedef, ExampleDepth) == ExampleGraph && NodesOf(ArrayOfTypedef, 3) == ExampleNodes
  {
    var defs := ArrayOfTypedef;
    assert Parts(defs[0]) == [Arr(Def(1))] && Parts(defs[1]) == [Def(2)] && Parts(defs[2]) == [];
    assert KnownType(defs, Def(1)) && KnownType(defs, Arr(Def(1))) && KnownType(defs, Def(2));
    assert Specify(Arr(Def(1)), false, false) == Specify(Def(1), false, true) == Specifier(Some(1), false, true);
    assert PartLists(defs, ExampleDepth, 0) == [[Decl(1)]] && PartLists(defs, ExampleDepth, 1) == [[Decl(2)]];
    assert PartLists(defs, ExampleDepth, 2) == [];
    assert Flatten([[Decl(1)]], 1) == Flatten([[Decl(1)]], 0) + [Decl(1)] == [Decl(1)];
    assert Flatten([[Decl(2)]], 1) == Flatten([[Decl(2)]], 0) + [Decl(2)] == [Decl(2)];
    assert [Decl(0)] + [Decl(1)] == [Decl(0), Decl(1)] && [Decl(2)] + [] == [Decl(2)];
    var deps := Dependencies(defs, ExampleDepth);
    assert deps[0] == [Decl(1)] && deps[1] == [Decl(2)] && deps[2] == [];
    assert GraphFrom(defs, deps, 1) == WithNodes(defs, GraphFrom(defs, deps, 0), 0, [Decl(1)]);
    assert GraphFrom(defs, deps, 2) == WithNodes(defs, GraphFrom(defs, deps, 1), 1, [Decl(2)]);
    assert GraphFrom(defs, deps, 3) == WithNodes(defs, GraphFrom(defs, deps, 2), 2, []);
    assert GraphFrom(defs, deps, 1) == map[Decl(0) := [], Body(0) := [Decl(0), Decl(1)]];
    assert NodesOf(defs, 1) == [Decl(0), Body(0)] && NodesOf(defs, 2) == [Decl(0), Body(0), Decl(1)];
  }

  lemma VisitedLeaf(g: Graph, rank: Node -> nat, n: Node, out: seq<Node>)
    requires GraphOk(g, rank) && n in g && g[n] == [] && n !in out
    ensures Visited(g, rank, n, out) == out + [n]
  {}

  lemma VisitedChild(g: Graph, rank: Node -> nat, n: Node, m: Node, out: seq<Node>)
    requires GraphOk(g, rank) && n in g && g[n] == [m] && n !in out
    ensures m in g && Visited(g, rank, n, out) == Visited(g, rank, m, out) + [n]
  {
    assert m in g[n] && g[n][..0] == [] && g[n][|g[n]| - 1] == m;
    assert VisitedAll(g, rank, rank(n), [], out) == out;
  }

  lemma VisitedChildren(g: Graph, rank: Node -> nat, n: Node, l: Node, m: Node, out: seq<Node>)
    requires GraphOk(g, rank) && n in g && g[n] == [l, m] && n !in out
    ensures l in g && m in g && Visited(g, rank, n, out) == Visited(g, rank, m, Visited(g, rank, l, out)) + [n]
  {
    var ns := g[n];
    assert l in ns && m in ns && ns[..1] == [l] && [l][..0] == [] && [l][|[l]| - 1] == l && ns[|ns| - 1] == m;
    assert VisitedAll(g, rank, rank(n), [], out) == out;
    assert VisitedAll(g, rank, rank(n), [l], out) == Visited(g, rank, l, out);
  }

  lemma ExampleTrees()
    ensures GraphOk(ExampleGraph, ExampleRank)
    ensures Visited(ExampleGraph, ExampleRank, Body(0), []) == ExampleOrder[..4]
    ensures Visited(ExampleGraph, ExampleRank, Body(2), ExampleOrder[..4]) == ExampleOrder
  {
    var g, r := ExampleGraph, ExampleRank;
    VisitedLeaf(g, r, Decl(0), []);
    VisitedLeaf(g, r, Decl(2), [Decl(0)]);
    VisitedChild(g, r, Decl(1), Decl(2), [Decl(0)]);
    VisitedChildren(g, r, Body(0), Decl(0), Decl(1), []);
    assert [] + [Decl(0)] == [Decl(0)] && [Decl(0)] + [Decl(2)] + [Decl(1)] + [Body(0)] == ExampleOrder[..4];
    assert ExampleOrder[..4] == [Decl(0), Decl(2), Decl(1), Body(0)] && ExampleOrder[..4][1] == Decl(2);
    VisitedChild(g, r, Body(2), Decl(2), ExampleOrder[..4]);
  }

  /** A visit from a node that is printed already, or from a node that is not a root, prints nothing. */
  lemma {:induction false} NothingNew(g: Graph, rank: Node -> nat, roots: bool, ns: seq<Node>, out: seq<Node>)
    requires GraphOk(g, rank) && forall n :: n in ns ==> n in g && (n in out || (roots && !IsRoot(g, n)))
    ensures VisitedFrom(g, rank, roots, ns, out) == out
  {
    if ns != [] { NothingNew(g, rank, roots, ns[..|ns| - 1], out); }
  }

  lemma ExampleRoots()
    ensures !IsRoot(ExampleGraph, Decl(0)) && !IsRoot(ExampleGraph, Decl(1)) && !IsRoot(ExampleGraph, Decl(2))
    ensures IsRoot(ExampleGraph, Body(0)) && IsRoot(ExampleGraph, Body(2))
  {
    var g := ExampleGraph;
    assert Decl(0) in g[Body(0)] && Decl(1) in g[Body(0)] && Decl(2) in g[Decl(1)];
  }

  lemma ExampleVisits()
    ensures GraphOk(ExampleGraph, ExampleRank) && VisitOrder(ExampleGraph, ExampleRank, ExampleNodes) == ExampleOrder
  {
    var g, r, ns := ExampleGraph, ExampleRank, ExampleNodes;
    ExampleTrees();
    ExampleRoots();
    assert ns[..0] == [] && ns[..5] == ns;
    VisitedNextFrom(g, r, true, ns, 0, []);
    VisitedNextFrom(g, r, true, ns, 1, []);
    VisitedNextFrom(g, r, true, ns, 2, []);
    VisitedNextFrom(g, r, true, ns, 3, []);
    VisitedNextFrom(g, r, true, ns, 4, []);
    assert VisitedFrom(g, r, true, ns, []) == ExampleOrder;
    assert ExampleOrder[0] == Decl(0) && ExampleOrder[1] == Decl(2) && ExampleOrder[2] == Decl(1);
    assert ExampleOrder[3] == Body(0) && ExampleOrder[4] == Body(2);
    NothingNew(g, r, false, ns, ExampleOrder);
  }

  /** The printed order of this table obeys all dependencies, and yet the body of `T` comes before the body of
      `S`, which it holds. */
  lemma HiddenElement()
    ensures TableOk(ArrayOfTypedef, ExampleDepth) && Held(ArrayOfTypedef, ExampleDepth, Arr(Def(1)), 2)
    ensures Printed(ArrayOfTypedef, ExampleDepth, ExampleRank, ExampleOrder)
    ensures !Precedes(ExampleOrder, Body(2), Body(0))
  {
    ExampleBuilt();
    ExampleVisits();
    assert KnownUnder(ArrayOfTypedef, ExampleDepth, 1);
  }
}
