/** Which bodies every emission prints in order. */
module EmissionExactness {
  import opened Wrappers
  import opened EmissionOrder

  // ----- reachability -----

  ghost predicate Path(defs: Table, depth: nat -> nat, s: seq<Node>)
    requires TableOk(defs, depth)
  {
    |s| >= 2 && forall i :: 0 <= i < |s| - 1 ==> Edge(defs, depth, s[i], s[i + 1])
  }

  /** The transitive closure of the dependencies. */
  ghost predicate Reach(defs: Table, depth: nat -> nat, a: Node, b: Node)
    requires TableOk(defs, depth)
  {
    exists s :: Path(defs, depth, s) && s[0] == a && s[|s| - 1] == b
  }

  lemma PathTail(defs: Table, depth: nat -> nat, s: seq<Node>)
    requires TableOk(defs, depth) && Path(defs, depth, s) && |s| > 2
    ensures Path(defs, depth, s[1..])
  {
    var t := s[1..];
    forall i | 0 <= i < |t| - 1 ensures Edge(defs, depth, t[i], t[i + 1]) {
      assert Edge(defs, depth, s[i + 1], s[i + 2]);
    }
  }

  lemma ReachEdge(defs: Table, depth: nat -> nat, a: Node, b: Node)
    requires TableOk(defs, depth) && Edge(defs, depth, a, b)
    ensures Reach(defs, depth, a, b)
  {
    assert Path(defs, depth, [a, b]);
  }

  lemma ReachStep(defs: Table, depth: nat -> nat, a: Node, n: Node, b: Node)
    requires TableOk(defs, depth) && Edge(defs, depth, a, n) && Reach(defs, depth, n, b)
    ensures Reach(defs, depth, a, b)
  {
    var s :| Path(defs, depth, s) && s[0] == n && s[|s| - 1] == b;
    assert Path(defs, depth, [a] + s);
  }

  /** The first dependency of a path, and the rest. */
  lemma ReachFirst(defs: Table, depth: nat -> nat, a: Node, b: Node) returns (n: Node)
    requires TableOk(defs, depth) && Reach(defs, depth, a, b)
    ensures Edge(defs, depth, a, n) && (n == b || Reach(defs, depth, n, b))
  {
    var s :| Path(defs, depth, s) && s[0] == a && s[|s| - 1] == b;
    n := s[1];
    if |s| > 2 {
      var t := s[1..];
      PathTail(defs, depth, s);
      assert Path(defs, depth, t) && t[0] == n && t[|t| - 1] == b;
    }
  }

  /** A dependency more at the end. */
  lemma ReachLast(defs: Table, depth: nat -> nat, a: Node, n: Node, b: Node)
    requires TableOk(defs, depth) && Reach(defs, depth, a, n) && Edge(defs, depth, n, b)
    ensures Reach(defs, depth, a, b)
  {
    var s :| Path(defs, depth, s) && s[0] == a && s[|s| - 1] == n;
    var t := s + [b];
    forall i | 0 <= i < |t| - 1 ensures Edge(defs, depth, t[i], t[i + 1]) {
      if i < |s| - 1 { assert Edge(defs, depth, s[i], s[i + 1]); }
    }
    assert Path(defs, depth, t);
  }

  // ----- fields -----

  /** The dependencies that a class has through a part of type `t` include the body of `d`. */
  ghost predicate PartReaches(defs: Table, depth: nat -> nat, t: Type, d: nat)
    requires TableOk(defs, depth) && KnownType(defs, t)
  {
    exists n :: Through(defs, depth, true, t, n) && (n == Body(d) || Reach(defs, depth, n, Body(d)))
  }

  /** The declaration of a class depends on nothing. */
  lemma DeclEnds(defs: Table, depth: nat -> nat, x: nat, b: Node)
    requires TableOk(defs, depth) && x < |defs| && Separate(defs, x)
    ensures !Reach(defs, depth, Decl(x), b)
  {
    if Reach(defs, depth, Decl(x), b) { var n := ReachFirst(defs, depth, Decl(x), b); }
  }

  /** The declaration of a typedef depends on one node. */
  lemma TypedefEdge(defs: Table, depth: nat -> nat, i: nat, d: nat, n: Node)
    requires TableOk(defs, depth) && i < |defs| && defs[i].Typedef? && KnownUnder(defs, depth, i)
    requires Held(defs, depth, defs[i].under, d)
    ensures var u := defs[i].under;
            Edge(defs, depth, Decl(i), n) <==> n == if u.Arr? && IsClass(defs, Element(u), d) then Body(d)
                else Decl(Element(u).id)
  {
    var u := defs[i].under;
    SpecifyElement(u, false, false);
    assert Parts(defs[i]) == [u];
    KnownElement(defs, u);
    assert Edge(defs, depth, Decl(i), n) <==> Through(defs, depth, false, u, n);
  }

  lemma {:induction false} DeclReaches(defs: Table, depth: nat -> nat, i: nat, d: nat)
    requires TableOk(defs, depth) && i < |defs| && defs[i].Typedef? && KnownUnder(defs, depth, i)
    requires Held(defs, depth, defs[i].under, d)
    ensures Reach(defs, depth, Decl(i), Body(d)) <==> DeclCovers(defs, depth, i, d)
    decreases depth(i)
  {
    var u, e := defs[i].under, Element(defs[i].under);
    var next := if u.Arr? && IsClass(defs, e, d) then Body(d) else Decl(e.id);
    TypedefEdge(defs, depth, i, d, next);
    if IsTypedef(defs, e) {
      assert KnownUnder(defs, depth, e.id);
      DeclReaches(defs, depth, e.id, d);
    } else {
      DeclEnds(defs, depth, d, Body(d));
    }
    if Reach(defs, depth, Decl(i), Body(d)) {
      var n := ReachFirst(defs, depth, Decl(i), Body(d));
      TypedefEdge(defs, depth, i, d, n);
    } else if next == Body(d) {
      ReachEdge(defs, depth, Decl(i), Body(d));
    } else if Reach(defs, depth, next, Body(d)) {
      ReachStep(defs, depth, Decl(i), next, Body(d));
    }
  }

  /** The dependencies of a field reach the body of a class that it holds exactly when no typedef names the
      class behind the last array. */
  lemma ReachExactly(defs: Table, depth: nat -> nat, t: Type, d: nat)
    requires TableOk(defs, depth) && KnownType(defs, t) && Held(defs, depth, t, d)
    ensures PartReaches(defs, depth, t, d) <==> !Hidden(defs, depth, t, false, false)
  {
    var e := Element(t);
    CoversExactly(defs, depth, t, d);
    SpecifyElement(t, false, false);
    KnownElement(defs, t);
    if IsTypedef(defs, e) {
      assert KnownUnder(defs, depth, e.id);
      DeclReaches(defs, depth, e.id, d);
      UnwrapHeld(defs, depth, e.id, d);
      HeldClass(defs, depth, t, d);
      TypedefField(defs, depth, t, d);
    } else {
      DeclEnds(defs, depth, d, Body(d));
      assert Through(defs, depth, true, t, Body(d));
    }
  }

  lemma {:induction false} HeldClass(defs: Table, depth: nat -> nat, t: Type, d: nat)
    requires TableOk(defs, depth) && KnownType(defs, t) && Held(defs, depth, t, d)
    ensures d < |defs| && defs[d].Class?
    decreases if Element(t).Def? then depth(Element(t).id) + 1 else 0
  {
    var e := Element(t);
    if !IsClass(defs, e, d) { HeldClass(defs, depth, defs[e.id].under, d); }
  }

  /** Through typedefs alone, a held class is the one that is held. */
  lemma {:induction false} UnwrapHeld(defs: Table, depth: nat -> nat, i: nat, d: nat)
    requires TableOk(defs, depth) && i < |defs| && defs[i].Typedef? && KnownUnder(defs, depth, i)
    requires Held(defs, depth, defs[i].under, d)
    ensures var u := Unwrap(defs, depth, Def(i)); u.Def? ==> u == Def(d)
    decreases depth(i)
  {
    var u := defs[i].under;
    if IsTypedef(defs, u) {
      assert KnownUnder(defs, depth, u.id);
      UnwrapHeld(defs, depth, u.id, d);
    }
  }

  lemma TypedefField(defs: Table, depth: nat -> nat, t: Type, d: nat)
    requires TableOk(defs, depth) && KnownType(defs, t) && d < |defs| && defs[d].Class? && IsTypedef(defs, Element(t))
    requires Specify(t, false, false) == Specifier(Some(Element(t).id), false, t.Arr?)
    requires var u := Unwrap(defs, depth, Element(t)); u.Def? ==> u == Def(d)
    requires var i := Element(t).id; Reach(defs, depth, Decl(i), Body(d)) <==> DeclCovers(defs, depth, i, d)
    ensures PartReaches(defs, depth, t, d) <==> FieldCovers(defs, depth, t, d)
  {
    var i := Element(t).id;
    assert Through(defs, depth, true, t, Decl(i));
    if FieldCovers(defs, depth, t, d) && !DeclCovers(defs, depth, i, d) {
      assert Through(defs, depth, true, t, Body(d));
    }
  }

  // ----- orders -----

  /** The dependencies have no cycle. */
  ghost predicate Acyclic(defs: Table, depth: nat -> nat, rank: Node -> nat)
    requires TableOk(defs, depth)
  {
    forall a, b :: Edge(defs, depth, a, b) ==> rank(b) < rank(a)
  }

  lemma {:induction false} ReachBelow(defs: Table, depth: nat -> nat, rank: Node -> nat, s: seq<Node>)
    requires TableOk(defs, depth) && Acyclic(defs, depth, rank) && Path(defs, depth, s)
    ensures rank(s[|s| - 1]) < rank(s[0])
    decreases |s|
  {
    assert Edge(defs, depth, s[0], s[1]);
    if |s| > 2 {
      var t := s[1..];
      PathTail(defs, depth, s);
      ReachBelow(defs, depth, rank, t);
    }
  }

  lemma {:induction false} PathPrecedes(defs: Table, depth: nat -> nat, g: Graph, out: seq<Node>, s: seq<Node>)
    requires TableOk(defs, depth) && Emission(defs, depth, g, out) && Path(defs, depth, s)
    ensures Precedes(out, s[|s| - 1], s[0])
    decreases |s|
  {
    EdgePrecedes(defs, depth, g, out, s[0], s[1]);
    if |s| > 2 {
      var t := s[1..];
      PathTail(defs, depth, s);
      PathPrecedes(defs, depth, g, out, t);
      PrecedesTrans(out, s[|s| - 1], s[1], s[0]);
    }
  }

  lemma {:induction false} Largest(s: set<Node>, key: Node -> nat) returns (x: Node)
    requires s != {}
    ensures x in s && forall y :: y in s ==> key(y) <= key(x)
    decreases |s|
  {
    x :| x in s;
    if s != {x} {
      var y := Largest(s - {x}, key);
      if key(x) < key(y) { x := y; }
    }
  }

  ghost predicate Sorted(out: seq<Node>, s: set<Node>, key: Node -> nat) {
    NoDup(out) && (forall n :: n in out <==> n in s) && forall i, j :: 0 <= i < j < |out| ==> key(out[i]) <= key(out[j])
  }

  lemma {:induction false} Sort(s: set<Node>, key: Node -> nat) returns (out: seq<Node>)
    ensures Sorted(out, s, key)
    decreases |s|
  {
    if s == {} {
      out := [];
    } else {
      var x := Largest(s, key);
      var less := Sort(s - {x}, key);
      out := less + [x];
    }
  }

  lemma SmallerFirst(out: seq<Node>, s: set<Node>, key: Node -> nat, a: Node, b: Node)
    requires Sorted(out, s, key) && a in s && b in s && key(a) < key(b)
    ensures Precedes(out, a, b)
  {
    var i :| 0 <= i < |out| && out[i] == a;
    var j :| 0 <= j < |out| && out[j] == b;
    assert i < j;
  }

  lemma PrecedesOnce(out: seq<Node>, a: Node, b: Node)
    requires NoDup(out) && Precedes(out, a, b)
    ensures !Precedes(out, b, a) && a != b
  {}

  lemma SortedOrdered(g: Graph, out: seq<Node>, key: Node -> nat)
    requires Sorted(out, g.Keys, key) && GraphOk(g, key)
    ensures Ordered(g, out)
  {
    forall i, m | 0 <= i < |out| && out[i] in g && m in g[out[i]] ensures m in out[..i] {
      SmallerFirst(out, g.Keys, key, m, out[i]);
      var j, k :| 0 <= j < k < |out| && out[j] == m && out[k] == out[i];
      assert k == i && out[..i][j] == m;
    }
  }

  /** The key that puts everything that `a` needs first. */
  ghost function Key(defs: Table, depth: nat -> nat, rank: Node -> nat, a: Node): Node -> nat
    requires TableOk(defs, depth)
  {
    n => if n == a || Reach(defs, depth, a, n) then rank(n) else rank(a) + 1 + rank(n)
  }

  lemma KeyOrders(defs: Table, depth: nat -> nat, rank: Node -> nat, g: Graph, a: Node)
    requires TableOk(defs, depth) && Acyclic(defs, depth, rank) && Represents(g, defs, depth)
    ensures GraphOk(g, Key(defs, depth, rank, a))
  {
    var key := Key(defs, depth, rank, a);
    forall n, m | n in g && m in g[n] ensures m in g && key(m) < key(n) {
      EdgeNode(defs, depth, n, m);
      assert Edge(defs, depth, n, m);
      if n == a { ReachEdge(defs, depth, a, m); } else if Reach(defs, depth, a, n) { ReachLast(defs, depth, a, n, m); }
      KeyBound(defs, depth, rank, a, m);
    }
  }

  lemma KeyBound(defs: Table, depth: nat -> nat, rank: Node -> nat, a: Node, n: Node)
    requires TableOk(defs, depth) && Acyclic(defs, depth, rank)
    ensures n == a || Reach(defs, depth, a, n) ==> rank(n) <= rank(a)
  {
    if Reach(defs, depth, a, n) {
      var s :| Path(defs, depth, s) && s[0] == a && s[|s| - 1] == n;
      ReachBelow(defs, depth, rank, s);
    }
  }

  /** Every emission prints `b` before `a`. */
  ghost predicate Always(defs: Table, depth: nat -> nat, g: Graph, b: Node, a: Node)
    requires TableOk(defs, depth)
  {
    forall out :: Emission(defs, depth, g, out) ==> Precedes(out, b, a)
  }

  /** A node is printed before another in every emission exactly when the other one depends on it. */
  lemma OrderExact(defs: Table, depth: nat -> nat, rank: Node -> nat, g: Graph, a: Node, b: Node)
    requires TableOk(defs, depth) && Acyclic(defs, depth, rank) && Represents(g, defs, depth) && a in g && b in g
    ensures Always(defs, depth, g, b, a) <==> Reach(defs, depth, a, b)
  {
    if Reach(defs, depth, a, b) {
      var s :| Path(defs, depth, s) && s[0] == a && s[|s| - 1] == b;
      forall out | Emission(defs, depth, g, out) ensures Precedes(out, b, a) { PathPrecedes(defs, depth, g, out, s); }
    } else {
      var key := Key(defs, depth, rank, a);
      var out := Sort(g.Keys, key);
      KeyOrders(defs, depth, rank, g, a);
      SortedOrdered(g, out, key);
      assert Emission(defs, depth, g, out);
      if a != b { SmallerFirst(out, g.Keys, key, a, b); }
      if Precedes(out, b, a) { PrecedesOnce(out, b, a); }
    }
  }

  // ----- classes -----

  /** The body of a class depends on what its fields depend on. */
  lemma BodyReaches(defs: Table, depth: nat -> nat, c: nat, d: nat)
    requires TableOk(defs, depth) && c < |defs| && defs[c].Class?
    ensures Reach(defs, depth, Body(c), Body(d)) <==>
            exists t :: t in defs[c].fields && KnownType(defs, t) && PartReaches(defs, depth, t, d)
  {
    if Reach(defs, depth, Body(c), Body(d)) {
      var n := ReachFirst(defs, depth, Body(c), Body(d));
      DeclEnds(defs, depth, c, Body(d));
      var t :| t in Parts(defs[c]) && KnownType(defs, t) && Through(defs, depth, true, t, n);
      assert PartReaches(defs, depth, t, d);
    }
    if t :| t in defs[c].fields && KnownType(defs, t) && PartReaches(defs, depth, t, d) {
      var n :| Through(defs, depth, true, t, n) && (n == Body(d) || Reach(defs, depth, n, Body(d)));
      assert t in Parts(defs[c]) && Edge(defs, depth, Body(c), n);
      if n == Body(d) { ReachEdge(defs, depth, Body(c), n); } else { ReachStep(defs, depth, Body(c), n, Body(d)); }
    }
  }

  /** The body of a class that a field holds is printed first in every emission exactly when no typedef names it
      behind the last array of the field, unless another field leads to it anyway. */
  lemma FieldOrderExact(defs: Table, depth: nat -> nat, rank: Node -> nat, g: Graph, c: nat, t: Type, d: nat)
    requires TableOk(defs, depth) && Acyclic(defs, depth, rank) && Represents(g, defs, depth)
    requires c < |defs| && defs[c].Class?
    requires t in defs[c].fields && KnownType(defs, t) && Held(defs, depth, t, d)
    requires forall u :: u in defs[c].fields && u != t && KnownType(defs, u) ==> !PartReaches(defs, depth, u, d)
    ensures Always(defs, depth, g, Body(d), Body(c)) <==> !Hidden(defs, depth, t, false, false)
  {
    HeldClass(defs, depth, t, d);
    assert IsNode(defs, Body(c)) && IsNode(defs, Body(d));
    OrderExact(defs, depth, rank, g, Body(c), Body(d));
    BodyReaches(defs, depth, c, d);
    ReachExactly(defs, depth, t, d);
  }
}
