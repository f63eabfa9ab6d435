/** Choosing the values that must be serialized into local variables. */
module Picker {
  import opened Wrappers
  import opened AvailableExpressions

  /** An operand of `user`; uses are told apart by their number. */
  datatype Use = Use(id: nat, user: nat)

  /** A function: the uses of each value, the set of available expressions answered at each instruction,
      and the program order.  Without phis the def-use relation is acyclic; `rank` witnesses it. */
  datatype Program = Program(
    uses: nat -> seq<Use>,
    sets: nat -> set<Pair>,
    order: nat -> nat,
    sideEffects: nat -> bool,
    rank: nat -> nat)

  ghost predicate Acyclic(p: Program) { forall i: nat, u :: u in p.uses(i) ==> p.rank(u.user) < p.rank(i) }

  predicate AvailableAt(p: Program, i: nat, u: Use) { exists q :: q in p.sets(u.user) && q.expr == i }

  /** Inlining the value at each of its uses would evaluate a read with side effects several times. */
  predicate Repeats(p: Program, i: nat, m: nat) { p.sideEffects(m) && |p.uses(i)| > 1 }

  /** The value is serialized, or inlining it does not repeat side effects and each of its uses is replaced, or
      reads memory where `m` may still be evaluated and passes the value on to a user with the same guarantee. */
  ghost predicate Closed(p: Program, i: nat, m: nat, serialized: set<nat>, replaced: set<Use>)
    requires Acyclic(p)
    decreases p.rank(i)
  {
    || i in serialized
    || (&& !Repeats(p, i, m)
        && forall u :: u in p.uses(i) ==>
             u in replaced || (AvailableAt(p, m, u) && Closed(p, u.user, m, serialized, replaced)))
  }

  lemma {:induction false} ClosedGrows(p: Program, i: nat, m: nat, s: set<nat>, r: set<Use>, s2: set<nat>, r2: set<Use>)
    requires Acyclic(p) && Closed(p, i, m, s, r) && s <= s2 && r <= r2
    ensures Closed(p, i, m, s2, r2)
    decreases p.rank(i)
  {
    if i !in s {
      forall u | u in p.uses(i) && u !in r2
        ensures AvailableAt(p, m, u) && Closed(p, u.user, m, s2, r2)
      {
        ClosedGrows(p, u.user, m, s, r, s2, r2);
      }
    }
  }

  /** A chain of uses from value `i` on. */
  predicate Chain(p: Program, i: nat, chain: seq<Use>)
    decreases |chain|
  {
    chain == [] || (chain[0] in p.uses(i) && Chain(p, chain[0].user, chain[1..]))
  }

  /** No value on the chain is serialized and no use on it is replaced. */
  predicate Inlined(i: nat, chain: seq<Use>, serialized: set<nat>, replaced: set<Use>)
    decreases |chain|
  {
    chain == [] || (i !in serialized && chain[0] !in replaced
        && Inlined(chain[0].user, chain[1..], serialized, replaced))
  }

  /** Wherever the read is inlined through a chain of values, it is available. */
  lemma {:induction false} ChainAvailable(p: Program, i: nat, m: nat, s: set<nat>, r: set<Use>, chain: seq<Use>, k: nat)
    requires Acyclic(p) && Closed(p, i, m, s, r) && Chain(p, i, chain) && Inlined(i, chain, s, r) && k < |chain|
    ensures AvailableAt(p, m, chain[k])
    decreases |chain|
  {
    if k > 0 { ChainAvailable(p, chain[0].user, m, s, r, chain[1..], k - 1); }
  }

  /** The value at the end of a chain. */
  function End(i: nat, chain: seq<Use>): nat { if chain == [] then i else chain[|chain| - 1].user }

  lemma EndNext(i: nat, chain: seq<Use>)
    requires chain != []
    ensures End(i, chain) == End(chain[0].user, chain[1..])
  {}

  /** Where an inlined chain from a read with side effects ends, the value is serialized unless it has a single
      use. */
  lemma {:induction false} ChainOnce(p: Program, i: nat, m: nat, s: set<nat>, r: set<Use>, chain: seq<Use>)
    requires Acyclic(p) && Closed(p, i, m, s, r) && Chain(p, i, chain) && Inlined(i, chain, s, r)
    ensures Repeats(p, End(i, chain), m) ==> End(i, chain) in s
    decreases |chain|
  {
    if chain != [] {
      EndNext(i, chain);
      ChainOnce(p, chain[0].user, m, s, r, chain[1..]);
    }
  }

  /** Inlined chains from a read with side effects do not part: the read is evaluated once. */
  lemma {:induction false} ChainsAgree(p: Program, i: nat, m: nat, s: set<nat>, r: set<Use>, x: seq<Use>, y: seq<Use>)
    requires Acyclic(p) && Closed(p, i, m, s, r) && p.sideEffects(m)
    requires Chain(p, i, x) && Inlined(i, x, s, r) && Chain(p, i, y) && Inlined(i, y, s, r)
    ensures x <= y || y <= x
    decreases |x|
  {
    if x != [] && y != [] {
      assert |p.uses(i)| <= 1 && x[0] == p.uses(i)[0] == y[0];
      ChainsAgree(p, x[0].user, m, s, r, x[1..], y[1..]);
    }
  }

  /** Some chain carries the read `m` to value `i`. */
  ghost predicate Reaches(p: Program, m: nat, i: nat) {
    exists chain: seq<Use> :: Chain(p, m, chain) && End(m, chain) == i
  }

  lemma ReachesSelf(p: Program, m: nat)
    ensures Reaches(p, m, m)
  {
    assert Chain(p, m, []) && End(m, []) == m;
  }

  lemma ReachesNext(p: Program, m: nat, i: nat, u: Use)
    requires Reaches(p, m, i) && u in p.uses(i)
    ensures Reaches(p, m, u.user)
  {
    var chain: seq<Use> :| Chain(p, m, chain) && End(m, chain) == i;
    ChainMore(p, m, chain, u);
    assert End(m, chain + [u]) == u.user;
  }

  lemma {:induction false} ChainMore(p: Program, m: nat, chain: seq<Use>, u: Use)
    requires Chain(p, m, chain) && u in p.uses(End(m, chain))
    ensures Chain(p, m, chain + [u])
    decreases |chain|
  {
    if chain != [] {
      EndNext(m, chain);
      ChainMore(p, chain[0].user, chain[1..], u);
      assert (chain + [u])[1..] == chain[1..] + [u];
    } else {
      assert ([] + [u])[1..] == [];
    }
  }

  /** An assignment from which value `i` can be read at `u`: the first one in program order. */
  method SelectAssignment(p: Program, i: nat, u: Use) returns (a: Option<nat>)
    ensures a.Some? ==> Pair(i, a) in p.sets(u.user)
    ensures a.Some? ==> forall b: nat :: Pair(i, Some(b)) in p.sets(u.user) ==> p.order(a.value) <= p.order(b)
    ensures a.None? ==> forall b: nat :: Pair(i, Some(b)) !in p.sets(u.user)
  {
    a := None;
    var todo := p.sets(u.user);
    while todo != {}
      invariant todo <= p.sets(u.user)
      invariant a.Some? ==> Pair(i, a) in p.sets(u.user)
      invariant forall b: nat :: Pair(i, Some(b)) in p.sets(u.user) - todo ==> a.Some? && p.order(a.value) <= p.order(b)
    {
      var q :| q in todo;
      todo := todo - {q};
      if q.expr == i && q.assign.Some? && (a.None? || p.order(q.assign.value) < p.order(a.value)) { a := q.assign; }
    }
  }

  /** At the use `u` of value `i`, to which `m` is carried: `m` is not available, but the assignment `a` stored
      `i` and its location still holds it, and no earlier assignment does. */
  ghost predicate ReadsBack(p: Program, m: nat, i: nat, u: Use, a: nat) {
    && Reaches(p, m, i) && u in p.uses(i) && !AvailableAt(p, m, u) && Pair(i, Some(a)) in p.sets(u.user)
    && forall b: nat :: Pair(i, Some(b)) in p.sets(u.user) ==> p.order(a) <= p.order(b)
  }

  ghost predicate ReplacedWell(p: Program, mems: seq<nat>, u: Use, a: nat) {
    exists m, i: nat :: m in mems && ReadsBack(p, m, i, u, a)
  }

  /** Some use of the value finds neither `m` nor the value itself. */
  ghost predicate Lost(p: Program, i: nat, m: nat) {
    exists u :: u in p.uses(i) && !AvailableAt(p, m, u) && forall b: nat :: Pair(i, Some(b)) !in p.sets(u.user)
  }

  /** The value has to be serialized: a read is carried to it that would be repeated or lost otherwise. */
  ghost predicate Needed(p: Program, mems: seq<nat>, i: nat) {
    exists m :: m in mems && Reaches(p, m, i) && (Repeats(p, i, m) || Lost(p, i, m))
  }

  class Choice {
    const p: Program
    const mems: seq<nat>
    var serialized: set<nat>
    var replaced: map<Use, nat>

    constructor (p: Program, mems: seq<nat>)
      ensures this.p == p && this.mems == mems && serialized == {} && replaced == map[]
    {
      this.p, this.mems := p, mems;
      serialized, replaced := {}, map[];
    }

    /** Replaced uses read a location that holds the value; only what has to be serialized is. */
    ghost predicate Valid()
      reads this
    {
      && Acyclic(p) && (forall u :: u in replaced ==> ReplacedWell(p, mems, u, replaced[u]))
      && forall i :: i in serialized ==> Needed(p, mems, i)
    }

    twostate predicate Grown()
      reads this
    {
      old(serialized) <= serialized && old(replaced.Keys) <= replaced.Keys && forall u ::
          u in old(replaced) ==> replaced[u] == old(replaced[u])
    }

    /** Follows the memory read `m` from value `i`, which passes it on. */
    method PickForMemoryRead(i: nat, m: nat)
      requires Valid() && m in mems && Reaches(p, m, i)
      modifies this
      ensures Valid() && Grown()
      ensures Closed(p, i, m, serialized, replaced.Keys)
      decreases p.rank(i), 1
    {
      if i in serialized { return; }
      if p.sideEffects(m) && |p.uses(i)| > 1 {
        serialized := serialized + {i};
        return;
      }
      var stop, toReplace, recur := CheckUses(i, m);
      if stop {
        serialized := serialized + {i};
        return;
      }
      replaced := replaced + toReplace;
      forall j | 0 <= j < |recur| ensures Reaches(p, m, recur[j].user) { ReachesNext(p, m, i, recur[j]); }
      Follow(recur, m, p.rank(i));
      forall u | u in p.uses(i) && u !in replaced.Keys
        ensures AvailableAt(p, m, u) && Closed(p, u.user, m, serialized, replaced.Keys)
      {
        var j :| 0 <= j < |recur| && recur[j] == u;
      }
    }

    method Follow(recur: seq<Use>, m: nat, ghost bound: nat)
      requires Valid() && m in mems
      requires forall j :: 0 <= j < |recur| ==> p.rank(recur[j].user) < bound && Reaches(p, m, recur[j].user)
      modifies this
      ensures Valid() && Grown()
      ensures forall j :: 0 <= j < |recur| ==> Closed(p, recur[j].user, m, serialized, replaced.Keys)
      decreases bound, 0
    {
      var k := 0;
      while k < |recur|
        invariant 0 <= k <= |recur| && Valid() && Grown()
        invariant forall j :: 0 <= j < k ==> Closed(p, recur[j].user, m, serialized, replaced.Keys)
      {
        ghost var s, r := serialized, replaced.Keys;
        PickForMemoryRead(recur[k].user, m);
        forall j | 0 <= j < k ensures Closed(p, recur[j].user, m, serialized, replaced.Keys) {
          ClosedGrows(p, recur[j].user, m, s, r, serialized, replaced.Keys);
        }
        k := k + 1;
      }
    }

    /** Sorts the uses of `i`: already replaced, available, replaceable; `stop` if one is none of these. */
    method CheckUses(i: nat, m: nat) returns (stop: bool, toReplace: map<Use, nat>, recur: seq<Use>)
      requires Reaches(p, m, i)
      ensures forall u :: u in toReplace ==> u !in replaced && ReadsBack(p, m, i, u, toReplace[u])
      ensures forall j :: 0 <= j < |recur| ==> recur[j] in p.uses(i) && AvailableAt(p, m, recur[j])
      ensures if stop then Lost(p, i, m)
              else forall u :: u in p.uses(i) ==> u in replaced || u in toReplace || u in recur
    {
      stop, toReplace, recur := false, map[], [];
      var uses := p.uses(i);
      var k := 0;
      while k < |uses|
        invariant 0 <= k <= |uses|
        invariant !stop && forall u :: u in toReplace ==> u !in replaced && ReadsBack(p, m, i, u, toReplace[u])
        invariant forall j :: 0 <= j < |recur| ==> recur[j] in p.uses(i) && AvailableAt(p, m, recur[j])
        invariant forall j :: 0 <= j < k ==> uses[j] in replaced || uses[j] in toReplace || uses[j] in recur
      {
        var u := uses[k];
        if u in replaced {
        } else if AvailableAt(p, m, u) {
          recur := recur + [u];
        } else {
          var a := SelectAssignment(p, i, u);
          if a.None? { stop := true; return; }
          toReplace := toReplace[u := a.value];
        }
        k := k + 1;
      }
    }

    /** All memory reads, in program order. */
    method Pick()
      requires Valid()
      modifies this
      ensures Valid() && forall m :: m in mems ==> Closed(p, m, m, serialized, replaced.Keys)
    {
      var k := 0;
      while k < |mems|
        invariant 0 <= k <= |mems| && Valid()
        invariant forall j :: 0 <= j < k ==> Closed(p, mems[j], mems[j], serialized, replaced.Keys)
      {
        ghost var s, r := serialized, replaced.Keys;
        ReachesSelf(p, mems[k]);
        PickForMemoryRead(mems[k], mems[k]);
        forall j | 0 <= j < k ensures Closed(p, mems[j], mems[j], serialized, replaced.Keys) {
          ClosedGrows(p, mems[j], mems[j], s, r, serialized, replaced.Keys);
        }
        k := k + 1;
      }
    }
  }

  /** A read with side effects is inlined along one chain only, and that chain ends at a serialized value or at
      one with a single use. */
  ghost predicate InlinedOnce(p: Program, m: nat, serialized: set<nat>, replaced: set<Use>) {
    && (forall chain ::
          Chain(p, m, chain) && Inlined(m, chain, serialized, replaced) && |p.uses(End(m, chain))| > 1 ==>
            End(m, chain) in serialized)
    && (forall x, y ::
          Chain(p, m, x) && Inlined(m, x, serialized, replaced) && Chain(p, m, y)
              && Inlined(m, y, serialized, replaced) ==>
            x <= y || y <= x)
  }

  /** Every use at which the read `m` is inlined through a chain of values finds it available. */
  ghost predicate InlinedWell(p: Program, m: nat, serialized: set<nat>, replaced: set<Use>) {
    && (forall chain, k: nat :: Chain(p, m, chain) && Inlined(m, chain, serialized, replaced) && k < |chain| ==>
          AvailableAt(p, m, chain[k]))
    && (p.sideEffects(m) ==> InlinedOnce(p, m, serialized, replaced))
  }

  lemma ClosedInlined(p: Program, m: nat, s: set<nat>, r: set<Use>)
    requires Acyclic(p) && Closed(p, m, m, s, r)
    ensures InlinedWell(p, m, s, r)
  {
    forall chain, k: nat | Chain(p, m, chain) && Inlined(m, chain, s, r) && k < |chain|
      ensures AvailableAt(p, m, chain[k])
    {
      ChainAvailable(p, m, m, s, r, chain, k);
    }
    if p.sideEffects(m) {
      forall chain | Chain(p, m, chain) && Inlined(m, chain, s, r) && |p.uses(End(m, chain))| > 1
        ensures End(m, chain) in s
      {
        ChainOnce(p, m, m, s, r, chain);
      }
      forall x, y | Chain(p, m, x) && Inlined(m, x, s, r) && Chain(p, m, y) && Inlined(m, y, s, r)
        ensures x <= y || y <= x
      {
        ChainsAgree(p, m, m, s, r, x, y);
      }
    }
  }

  /** The final choice: memory reads are inlined only where this is right, every replaced use reads back its
      value, and nothing is serialized without need. */
  method Choose(p: Program, mems: seq<nat>) returns (serialized: set<nat>, replaced: map<Use, nat>)
    requires Acyclic(p)
    ensures forall m :: m in mems ==> InlinedWell(p, m, serialized, replaced.Keys)
    ensures forall u :: u in replaced ==> ReplacedWell(p, mems, u, replaced[u])
    ensures forall i :: i in serialized ==> Needed(p, mems, i)
  {
    var c := new Choice(p, mems);
    c.Pick();
    serialized, replaced := c.serialized, c.replaced;
    forall m | m in mems ensures InlinedWell(p, m, serialized, replaced.Keys) {
      ClosedInlined(p, m, serialized, replaced.Keys);
    }
  }
}
