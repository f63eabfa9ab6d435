/** Keeping expressions small by storing large values into local variables. */
module ExpressionSize {

  /** An operand is a leaf or the value of an earlier instruction. */
  datatype Operand = Leaf(c: nat) | Ref(i: nat)

  /** Statements, and instructions that are not emitted, are read as one node. */
  datatype Kind = Statement | Expression | StructInitializer

  datatype Inst = Inst(kind: Kind, operands: seq<Operand>)

  /** Reverse post order: operands come first. */
  predicate Listed(code: seq<Inst>) {
    forall i, k :: 0 <= i < |code| && 0 <= k < |code[i].operands| && code[i].operands[k].Ref? ==>
        code[i].operands[k].i < i
  }

  // ----- the size of what is emitted -----

  /** The number of nodes of the expression emitted for instruction `i`, when the values in `stored` are
      read back from variables. */
  function Nodes(code: seq<Inst>, stored: set<nat>, i: nat): nat
    requires Listed(code) && i < |code|
    decreases i, 1, 0
  {
    1 + OperandNodes(code, stored, i, |code[i].operands|)
  }

  function OperandNodes(code: seq<Inst>, stored: set<nat>, i: nat, n: nat): nat
    requires Listed(code) && i < |code| && n <= |code[i].operands|
    decreases i, 0, n
  {
    if n == 0 then 0 else OperandNodes(code, stored, i, n - 1) + ReadNodes(code, stored, i, n - 1)
  }

  /** What an operand adds: a variable or a statement is one node, anything else is inlined. */
  function ReadNodes(code: seq<Inst>, stored: set<nat>, i: nat, k: nat): nat
    requires Listed(code) && i < |code| && k < |code[i].operands|
    decreases i, 0, k
  {
    match code[i].operands[k]
    case Leaf(_) => 1
    case Ref(j) => if j in stored || code[j].kind == Statement then 1 else Nodes(code, stored, j)
  }

  // ----- the pass -----

  ghost predicate SizesOk(code: seq<Inst>, threshold: nat, sizes: seq<nat>, stored: set<nat>)
    requires Listed(code)
  {
    && |sizes| <= |code| && (forall i :: i in stored ==> i < |sizes| && code[i].kind == Expression)
    && forall i :: 0 <= i < |sizes| ==>
         && sizes[i] == (if i in stored || code[i].kind == Statement then 1 else Nodes(code, stored, i))
         && (code[i].kind == Expression ==> (i in stored <==> Nodes(code, stored, i) > threshold))
  }

  /** Deciding about later instructions does not change earlier ones. */
  lemma {:induction false} NodesStable(code: seq<Inst>, stored: set<nat>, new_: nat, i: nat)
    requires Listed(code) && i < |code| && i <= new_
    ensures Nodes(code, stored + {new_}, i) == Nodes(code, stored, i)
    decreases i, 1, 0
  {
    OperandsStable(code, stored, new_, i, |code[i].operands|);
  }

  lemma {:induction false} OperandsStable(code: seq<Inst>, stored: set<nat>, new_: nat, i: nat, n: nat)
    requires Listed(code) && i < |code| && n <= |code[i].operands| && i <= new_
    ensures OperandNodes(code, stored + {new_}, i, n) == OperandNodes(code, stored, i, n)
    decreases i, 0, n
  {
    if n > 0 {
      OperandsStable(code, stored, new_, i, n - 1);
      var x := code[i].operands[n - 1];
      if x.Ref? { NodesStable(code, stored, new_, x.i); }
    }
  }

  method SizeOf(code: seq<Inst>, threshold: nat, sizes: seq<nat>, ghost stored: set<nat>, i: nat) returns (size: nat)
    requires Listed(code) && SizesOk(code, threshold, sizes, stored) && i == |sizes| < |code|
    ensures size == Nodes(code, stored, i)
  {
    size := 1;
    var k := 0;
    while k < |code[i].operands|
      invariant 0 <= k <= |code[i].operands| && size == 1 + OperandNodes(code, stored, i, k)
    {
      var x := code[i].operands[k];
      size := size + (if x.Leaf? then 1 else sizes[x.i]);
      k := k + 1;
    }
  }

  /** Collects the instructions whose expression would exceed the threshold. */
  method ChooseStored(code: seq<Inst>, threshold: nat) returns (stored: set<nat>, sizes: seq<nat>)
    requires Listed(code)
    ensures |sizes| == |code| && SizesOk(code, threshold, sizes, stored)
    ensures forall i: nat ::
        i in stored <==> i < |code| && code[i].kind == Expression && Nodes(code, stored, i) > threshold
  {
    sizes, stored := [], {};
    while |sizes| < |code|
      invariant |sizes| <= |code| && SizesOk(code, threshold, sizes, stored)
      decreases |code| - |sizes|
    {
      var i := |sizes|;
      if code[i].kind == Statement {
        sizes := sizes + [1];
      } else {
        var size := SizeOf(code, threshold, sizes, stored, i);
        if code[i].kind == Expression && size > threshold {
          forall j | 0 <= j <= i
            ensures Nodes(code, stored + {i}, j) == Nodes(code, stored, j)
          {
            NodesStable(code, stored, i, j);
          }
          stored := stored + {i};
          size := 1;
        }
        sizes := sizes + [size];
      }
    }
  }

  // ----- bounds -----

  /** No instruction takes a struct initializer or more than `width` operands. */
  predicate Narrow(code: seq<Inst>, width: nat)
    requires Listed(code)
  {
    && (forall i :: 0 <= i < |code| ==> |code[i].operands| <= width)
    && forall i, k :: 0 <= i < |code| && 0 <= k < |code[i].operands| && code[i].operands[k].Ref? ==>
         code[code[i].operands[k].i].kind != StructInitializer
  }

  lemma {:induction false} OperandBound(code: seq<Inst>, threshold: nat, width: nat, sizes: seq<nat>,
      stored: set<nat>, i: nat, n: nat)
    requires Listed(code) && Narrow(code, width) && |sizes| == |code| && SizesOk(code, threshold, sizes, stored)
    requires threshold >= 1
    requires i < |code| && n <= |code[i].operands|
    ensures OperandNodes(code, stored, i, n) <= n * threshold
  {
    if n > 0 {
      OperandBound(code, threshold, width, sizes, stored, i, n - 1);
      assert ReadNodes(code, stored, i, n - 1) <= threshold;
      assert n * threshold == (n - 1) * threshold + threshold;
    }
  }

  /** Inlined expressions have at most `threshold` nodes, everything else at most one more than the
      threshold for each operand. */
  lemma SizeBound(code: seq<Inst>, threshold: nat, width: nat, sizes: seq<nat>, stored: set<nat>, i: nat)
    requires Listed(code) && Narrow(code, width) && |sizes| == |code| && SizesOk(code, threshold, sizes, stored)
    requires threshold >= 1
    requires i < |code|
    ensures code[i].kind == Expression && i !in stored ==> Nodes(code, stored, i) <= threshold
    ensures Nodes(code, stored, i) <= 1 + width * threshold
  {
    var n := |code[i].operands|;
    OperandBound(code, threshold, width, sizes, stored, i, n);
    assert n * threshold <= width * threshold by { Multiply(n, width, threshold); }
  }

  lemma Multiply(a: nat, b: nat, c: nat)
    requires a <= b
    ensures a * c <= b * c
  {}

  /** The nodes of everything that is emitted as a statement or into a variable, up to instruction `n`. */
  function Emitted(code: seq<Inst>, stored: set<nat>, n: nat): nat
    requires Listed(code) && n <= |code|
  {
    if n == 0 then 0
    else
      Emitted(code, stored, n - 1)
      + (if n - 1 in stored || code[n - 1].kind == Statement then Nodes(code, stored, n - 1) else 0)
  }

  /** The emitted code is linear in the number of instructions. */
  lemma {:induction false} EmittedBound(code: seq<Inst>, threshold: nat, width: nat, sizes: seq<nat>,
      stored: set<nat>, n: nat)
    requires Listed(code) && Narrow(code, width) && |sizes| == |code| && SizesOk(code, threshold, sizes, stored)
    requires threshold >= 1
    requires n <= |code|
    ensures Emitted(code, stored, n) <= n * (1 + width * threshold)
  {
    if n > 0 {
      EmittedBound(code, threshold, width, sizes, stored, n - 1);
      SizeBound(code, threshold, width, sizes, stored, n - 1);
      assert n * (1 + width * threshold) == (n - 1) * (1 + width * threshold) + (1 + width * threshold);
    }
  }

  // ----- values -----

  /** What step `t` computes with instruction `i` from the values of its operands. */
  type Meaning = (nat, nat, seq<int>) -> int

  /** A run executes instructions in any order, any number of times, as long as operands are computed before. */
  predicate RunOk(code: seq<Inst>, run: seq<nat>) {
    forall t :: 0 <= t < |run| ==>
      run[t] < |code| && forall x :: x in code[run[t]].operands && x.Ref? ==> x.i in run[..t]
  }

  lemma RunPrefix(code: seq<Inst>, run: seq<nat>, n: nat)
    requires RunOk(code, run) && n <= |run|
    ensures RunOk(code, run[..n])
  {
    forall t | 0 <= t < n
      ensures run[..n][t] < |code| && forall x :: x in code[run[..n][t]].operands && x.Ref? ==> x.i in run[..n][..t]
    {
      assert run[..n][..t] == run[..t];
    }
  }

  /** The latest value of every instruction after a run of the original code. */
  function Latest(code: seq<Inst>, f: Meaning, run: seq<nat>): (values: map<nat, int>)
    requires RunOk(code, run)
    ensures forall i :: i in values <==> i in run
  {
    if run == [] then map[]
    else
      var n := |run| - 1;
      var i := run[n];
      RunPrefix(code, run, n);
      var before := Latest(code, f, run[..n]);
      before[i := f(n, i, Arguments(code[i].operands, before))]
  }

  function Arguments(operands: seq<Operand>, values: map<nat, int>): seq<int> {
    seq(|operands|, k requires 0 <= k < |operands| => Read(values, operands[k]))
  }

  function Read(values: map<nat, int>, x: Operand): int {
    match x case Leaf(c) => c case Ref(j) => if j in values then values[j] else 0
  }

  /** Executes the new code: instructions in `stored` are stored into a variable of their own, from which
      their users read. */
  method Execute(code: seq<Inst>, f: Meaning, stored: set<nat>, run: seq<nat>)
    returns (values: map<nat, int>, memory: map<nat, int>)
    requires RunOk(code, run)
    ensures values == Latest(code, f, run)
    ensures forall i :: i in memory <==> i in stored && i in run
    ensures forall i :: i in memory ==> memory[i] == values[i]
  {
    values, memory := map[], map[];
    var t := 0;
    while t < |run|
      invariant 0 <= t <= |run| && RunOk(code, run[..t]) && values == Latest(code, f, run[..t])
      invariant forall i :: i in memory <==> i in stored && i in run[..t]
      invariant forall i :: i in memory ==> memory[i] == values[i]
    {
      var i := run[t];
      var operands := code[i].operands;
      var args := seq(|operands|, k requires 0 <= k < |operands| =>
        if operands[k].Ref? && operands[k].i in stored then Read(memory, operands[k]) else Read(values, operands[k]));
      assert args == Arguments(operands, values) by {
        forall k | 0 <= k < |operands| && operands[k].Ref? ensures operands[k].i in run[..t] {
          assert operands[k] in operands;
        }
      }
      var v := f(t, i, args);
      values := values[i := v];
      if i in stored { memory := memory[i := v]; }
      RunPrefix(code, run, t + 1);
      assert run[..t + 1][..t] == run[..t] && run[..t + 1][t] == i;
      t := t + 1;
    }
    assert run[..|run|] == run;
  }
}
