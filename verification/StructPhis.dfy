/** Splitting phis of struct type into one phi per field. */
module StructPhis {

  // ----- programs in SSA form -----

  datatype Operand<+V> = Undef | Value(v: V)

  datatype Inst<+V> =
    | Phi(inc: map<nat, Operand<V>>)
    | Op(f: nat, args: seq<Operand<V>>)
    | Extract(x: Operand<V>, k: nat)
    | Init(args: seq<Operand<V>>)

  /** Values with their instruction, their block, their position in it and their number of fields
      (0 for scalars). */
  datatype Program<!V> = Program(inst: V -> Inst<V>, block: V -> nat, pos: V -> nat, width: V -> nat)

  datatype Val = Undefined | Scalar(n: int) | Struct(fs: seq<Val>)

  /** What an operation computes may depend on the step at which it runs. */
  type Oracle = (nat, nat, seq<Val>) -> Val

  function Default(width: nat): Val { if width == 0 then Undefined else Struct(seq(width, i => Undefined)) }

  function Fit(width: nat, x: Val): Val {
    if width == 0 || (x.Struct? && |x.fs| == width) then x else Default(width)
  }

  function FieldOf(x: Val, k: nat): Val { if x.Struct? && k < |x.fs| then x.fs[k] else Undefined }

  /** The value of `v` after step `t` of a run through the blocks of `path`. */
  function Eval<V>(p: Program<V>, o: Oracle, path: seq<nat>, t: nat, v: V): Val
    requires t < |path|
    decreases t, p.pos(v), 2
  {
    if path[t] == p.block(v) then Compute(p, o, path, t, v)
    else if t == 0 then Default(p.width(v))
    else Eval(p, o, path, t - 1, v)
  }

  /** Phis read the values at the end of the previous block, all at once. */
  function Compute<V>(p: Program<V>, o: Oracle, path: seq<nat>, t: nat, v: V): Val
    requires t < |path|
    decreases t, p.pos(v), 1
  {
    match p.inst(v)
    case Phi(inc) =>
      if t == 0 || path[t - 1] !in inc || inc[path[t - 1]].Undef? then Default(p.width(v))
      else Fit(p.width(v), Eval(p, o, path, t - 1, inc[path[t - 1]].v))
    case Op(f, args) =>
      Fit(p.width(v), o(f, t, seq(|args|, i requires 0 <= i < |args| => Arg(p, o, path, t, v, args[i]))))
    case Extract(x, k) => FieldOf(Arg(p, o, path, t, v, x), k)
    case Init(args) => Struct(seq(|args|, i requires 0 <= i < |args| => Arg(p, o, path, t, v, args[i])))
  }

  /** An operand of `v`, which runs at step `t`. */
  function Arg<V>(p: Program<V>, o: Oracle, path: seq<nat>, t: nat, v: V, x: Operand<V>): Val
    requires t < |path|
    decreases t, p.pos(v), 0
  {
    match x
    case Undef => Undefined
    case Value(y) =>
      if p.block(y) == p.block(v) && p.pos(y) < p.pos(v) then Eval(p, o, path, t, y)
      else if t == 0 then Default(p.width(y))
      else Eval(p, o, path, t - 1, y)
  }

  /** Operands are defined before they are used in the same block. */
  predicate Before<V>(p: Program<V>, y: V, v: V) { p.block(y) == p.block(v) ==> p.pos(y) < p.pos(v) }

  lemma ArgIsEval<V>(p: Program<V>, o: Oracle, path: seq<nat>, t: nat, v: V, y: V)
    requires t < |path| && path[t] == p.block(v) && Before(p, y, v)
    ensures Arg(p, o, path, t, v, Value(y)) == Eval(p, o, path, t, y)
  {}

  // ----- paths and dominance -----

  datatype Graph = Graph(entry: nat, edges: set<(nat, nat)>)

  predicate IsPath(g: Graph, path: seq<nat>) {
    && path != [] && path[0] == g.entry
    && forall i :: 0 <= i < |path| - 1 ==> (path[i], path[i + 1]) in g.edges
  }

  ghost predicate Dom(g: Graph, a: nat, b: nat) {
    forall path :: IsPath(g, path) && path[|path| - 1] == b ==> a in path
  }

  lemma PrefixPath(g: Graph, path: seq<nat>, n: nat)
    requires IsPath(g, path) && 0 < n <= |path|
    ensures IsPath(g, path[..n])
  {
    forall i | 0 <= i < n - 1 ensures (path[..n][i],
        path[..n][i + 1]) in g.edges { assert (path[i], path[i + 1]) in g.edges; }
  }

  lemma JoinPath(g: Graph, x: seq<nat>, y: seq<nat>, r: nat, t: nat)
    requires IsPath(g, x) && IsPath(g, y) && r <= t < |y| && x[|x| - 1] == y[r]
    ensures IsPath(g, x + y[r + 1..t + 1]) && (x + y[r + 1..t + 1])[|x + y[r + 1..t + 1]| - 1] == y[t]
  {
    var z := x + y[r + 1..t + 1];
    forall i | 0 <= i < |z| - 1
      ensures (z[i], z[i + 1]) in g.edges
    {
      if i + 1 < |x| {
        assert (x[i], x[i + 1]) in g.edges;
      } else {
        var j := i - |x| + 1 + r;
        assert (y[j], y[j + 1]) in g.edges;
      }
    }
  }

  /** The last step up to `t` in block `b`. */
  lemma {:induction false} LastIn(path: seq<nat>, t: nat, b: nat) returns (s: nat)
    requires t < |path| && b in path[..t + 1]
    ensures s <= t && path[s] == b && forall r :: s < r <= t ==> path[r] != b
  {
    s := t;
    while path[s] != b
      invariant s <= t && b in path[..s + 1] && forall r :: s < r <= t ==> path[r] != b
      decreases s
    {
      assert path[..s + 1] == path[..s] + [path[s]];
      s := s - 1;
    }
  }

  lemma {:induction false} FirstIn(path: seq<nat>, t: nat, b: nat) returns (s: nat)
    requires t < |path| && b in path[..t + 1]
    ensures s <= t && path[s] == b && forall r :: 0 <= r < s ==> path[r] != b
  {
    s := 0;
    while path[s] != b
      invariant s <= t && forall r :: 0 <= r < s ==> path[r] != b
      invariant b in path[s..t + 1]
      decreases t - s
    {
      assert path[s..t + 1] == [path[s]] + path[s + 1..t + 1];
      s := s + 1;
    }
  }

  lemma DomHere(g: Graph, a: nat, path: seq<nat>, t: nat)
    requires IsPath(g, path) && t < |path| && Dom(g, a, path[t])
    ensures a in path[..t + 1]
  {
    PrefixPath(g, path, t + 1);
    assert path[..t + 1][t] == path[t];
  }

  /** Before it first reaches `b`, a path has been in every other block that dominates `b`. */
  lemma ReachFirst(g: Graph, a: nat, b: nat, path: seq<nat>, t: nat) returns (x: seq<nat>)
    requires IsPath(g, path) && t < |path| && path[t] == b && Dom(g, a, b) && a != b
    ensures IsPath(g, x) && x[|x| - 1] == a && b !in x
  {
    var s := FirstIn(path, t, b);
    DomHere(g, a, path, s);
    var r := LastIn(path, s, a);
    x := path[..r + 1];
    PrefixPath(g, path, r + 1);
  }

  /** Since `i` last ran, its dominator has not run again, where `i` still dominates. */
  lemma NotSince(g: Graph, a: nat, i: nat, path: seq<nat>, s: nat, t: nat)
    requires IsPath(g, path) && s <= t < |path| && path[s] == i && Dom(g, i, path[t]) && Dom(g, a, i) && a != i
    requires forall r :: s < r <= t ==> path[r] != i
    ensures forall r :: s < r <= t ==> path[r] != a
  {
    forall r | s < r <= t
      ensures path[r] != a
    {
      if path[r] == a {
        var x := ReachFirst(g, a, i, path, s);
        JoinPath(g, x, path, r, t);
      }
    }
  }

  lemma {:induction false} EvalBack<V>(p: Program<V>, o: Oracle, path: seq<nat>, s: nat, t: nat, v: V)
    requires s <= t < |path| && forall r :: s < r <= t ==> path[r] != p.block(v)
    ensures Eval(p, o, path, t, v) == Eval(p, o, path, s, v)
    decreases t
  {
    if s < t { EvalBack(p, o, path, s, t - 1, v); }
  }

  /** Where an instruction dominates, its operand still has the value it was computed from. */
  lemma Persist<V>(g: Graph, p: Program<V>, o: Oracle, path: seq<nat>, t: nat, i: V, y: V) returns (s: nat)
    requires IsPath(g, path) && t < |path| && Dom(g, p.block(i), path[t]) && Dom(g, p.block(y), p.block(i))
    requires Before(p, y, i)
    ensures s <= t && path[s] == p.block(i) && Eval(p, o, path, t, i) == Compute(p, o, path, s, i)
    ensures Arg(p, o, path, s, i, Value(y)) == Eval(p, o, path, t, y)
  {
    DomHere(g, p.block(i), path, t);
    s := LastIn(path, t, p.block(i));
    EvalBack(p, o, path, s, t, i);
    if p.block(y) != p.block(i) { NotSince(g, p.block(y), p.block(i), path, s, t); }
    EvalBack(p, o, path, s, t, y);
    ArgIsEval(p, o, path, s, i, y);
  }

  // ----- the pass -----

  /** The values of the new program: old ones, per-field phis, extractions at the end of a predecessor,
      and reconstructed structs. */
  datatype New = Old(v: nat) | Field(p: nat, k: nat) | Ext(b: nat, p: nat, k: nat) | Recon(p: nat)

  /** What the pass splits: the struct phis, and a bound on positions. */
  datatype Splitting = Splitting(p: Program<nat>, phis: set<nat>, end: nat)

  /** The value is an extraction from a split phi; its uses are rewired to the per-field phi. */
  predicate Rewired(w: Splitting, v: nat) {
    var i := w.p.inst(v);
    i.Extract? && i.x.Value? && i.x.v in w.phis
  }

  predicate Kept(w: Splitting, v: nat) { v !in w.phis && !Rewired(w, v) }

  /** What stands for value `v` in the new program. */
  function Subst(w: Splitting, v: nat): New {
    if v in w.phis then Recon(v) else if Rewired(w, v) then Field(w.p.inst(v).x.v, w.p.inst(v).k) else Old(v)
  }

  function SubstOp(w: Splitting, x: Operand<nat>): Operand<New> { if x.Undef? then Undef else Value(Subst(w, x.v)) }

  /** The value that the per-field phi takes from predecessor `b`. */
  function IncomingField(w: Splitting, p: nat, b: nat, k: nat): Operand<New>
    requires w.p.inst(p).Phi? && b in w.p.inst(p).inc
  {
    var x := w.p.inst(p).inc[b];
    if x.Undef? then Undef
    else if x.v in w.phis then Value(Field(x.v, k))
    else if w.p.inst(x.v).Init? && k < |w.p.inst(x.v).args| then SubstOp(w, w.p.inst(x.v).args[k])
    else Value(Ext(b, p, k))
  }

  function NewInst(w: Splitting, x: New): Inst<New> {
    match x
    case Field(p, k) =>
      if w.p.inst(p).Phi? then Phi(map b | b in w.p.inst(p).inc :: IncomingField(w, p, b, k)) else Op(0, [])
    case Ext(b, p, k) =>
      if w.p.inst(p).Phi? && b in w.p.inst(p).inc then Extract(SubstOp(w, w.p.inst(p).inc[b]), k) else Op(0, [])
    case Recon(p) => Init(seq(w.p.width(p), k requires 0 <= k < w.p.width(p) => Value(Field(p, k))))
    case Old(v) =>
      match w.p.inst(v)
      case Phi(inc) => Phi(map b | b in inc :: SubstOp(w, inc[b]))
      case Op(f, args) => Op(f, seq(|args|, i requires 0 <= i < |args| => SubstOp(w, args[i])))
      case Extract(y, k) => Extract(SubstOp(w, y), k)
      case Init(args) => Init(seq(|args|, i requires 0 <= i < |args| => SubstOp(w, args[i])))
  }

  function NewBlock(w: Splitting, x: New): nat {
    match x
    case Old(v) => w.p.block(v)
    case Field(p, _) => w.p.block(p)
    case Ext(b, _, _) => b
    case Recon(p) => w.p.block(p)
  }

  /** Phis first, then reconstructions, then the old instructions, then extractions. */
  function NewPos(w: Splitting, x: New): nat {
    match x case Field(_, _) => 0 case Recon(_) => 1 case Old(v) => w.p.pos(v) + 2 case Ext(_, _, _) => w.end + 2
  }

  function NewWidth(w: Splitting, x: New): nat {
    match x case Old(v) => w.p.width(v) case Recon(p) => w.p.width(p) case _ => 0
  }

  function Split(w: Splitting): Program<New> {
    Program((x: New) => NewInst(w, x), (x: New) => NewBlock(w, x), (x: New) => NewPos(w, x), (x: New) => NewWidth(w, x))
  }

  // ----- well-formed programs -----

  /** An operand of a value that is no phi is defined before it, in a block that dominates it. */
  ghost predicate Uses(g: Graph, w: Splitting, v: nat, x: Operand<nat>) {
    x.Value? ==> Dom(g, w.p.block(x.v), w.p.block(v)) && Before(w.p, x.v, v)
  }

  ghost predicate ValueOk(g: Graph, w: Splitting, v: nat) {
    && w.p.pos(v) < w.end && (w.p.inst(v).Phi? <==> w.p.pos(v) == 0)
    && match w.p.inst(v)
       case Phi(inc) => forall b :: b in inc && inc[b].Value? ==> Dom(g, w.p.block(inc[b].v), b)
       case Op(_, args) => forall i :: 0 <= i < |args| ==> Uses(g, w, v, args[i])
       case Extract(x, _) => Uses(g, w, v, x) && w.p.width(v) == 0
       case Init(args) => w.p.width(v) == |args| && forall i :: 0 <= i < |args| ==> Uses(g, w, v, args[i])
  }

  /** SSA form, and the split phis are struct phis whose incoming values have their type. */
  ghost predicate SplittingOk(g: Graph, w: Splitting) {
    && (forall v :: ValueOk(g, w, v))
    && forall p :: p in w.phis ==>
         && w.p.inst(p).Phi? && w.p.width(p) > 0
         && forall b :: b in w.p.inst(p).inc && w.p.inst(p).inc[b].Value? ==>
             w.p.width(w.p.inst(p).inc[b].v) == w.p.width(p)
  }

  /** Values of struct type have their number of fields. */
  lemma {:induction false} Shaped(g: Graph, w: Splitting, o: Oracle, path: seq<nat>, t: nat, v: nat)
    requires SplittingOk(g, w) && t < |path| && w.p.width(v) > 0
    ensures var x := Eval(w.p, o, path, t, v); x.Struct? && |x.fs| == w.p.width(v)
    decreases t
  {
    assert ValueOk(g, w, v);
    if path[t] != w.p.block(v) && t > 0 { Shaped(g, w, o, path, t - 1, v); }
  }

  // ----- the new program computes the same -----

  /** What a value of the new program means in terms of the old one. */
  ghost predicate Means(w: Splitting, o: Oracle, path: seq<nat>, t: nat, x: New)
    requires t < |path|
  {
    var y := Eval(Split(w), o, path, t, x);
    match x
    case Old(v) => Kept(w, v) ==> y == Eval(w.p, o, path, t, v)
    case Field(p, k) => p in w.phis ==> y == FieldOf(Eval(w.p, o, path, t, p), k)
    case Recon(p) => p in w.phis ==> y == Eval(w.p, o, path, t, p)
    case Ext(b, p, k) =>
      p in w.phis && w.p.inst(p).Phi? && b in w.p.inst(p).inc && w.p.inst(p).inc[b].Value? && path[t] == b ==>
        y == FieldOf(Eval(w.p, o, path, t, w.p.inst(p).inc[b].v), k)
  }

  function Rank(w: Splitting, path: seq<nat>, t: nat, x: New): nat
    requires t < |path|
  {
    if path[t] == NewBlock(w, x) then NewPos(w, x) + 1 else 0
  }

  lemma {:induction false} Agree(g: Graph, w: Splitting, o: Oracle, path: seq<nat>, t: nat, x: New)
    requires SplittingOk(g, w) && IsPath(g, path) && t < |path|
    ensures Means(w, o, path, t, x)
    decreases t, Rank(w, path, t, x), 2
  {
    if path[t] != NewBlock(w, x) {
      if t > 0 { Agree(g, w, o, path, t - 1, x); }
    } else {
      match x
      case Field(p, k) => if p in w.phis { AgreeField(g, w, o, path, t, p, k); }
      case Recon(p) => if p in w.phis { AgreeRecon(g, w, o, path, t, p); }
      case Ext(b, p, k) =>
        if p in w.phis && w.p.inst(p).Phi? && b in w.p.inst(p).inc && w.p.inst(p).inc[b].Value? {
          AgreeExt(g, w, o, path, t, b, p, k);
        }
      case Old(v) => if Kept(w, v) { AgreeOld(g, w, o, path, t, v); }
    }
  }

  lemma {:induction false} AgreeRecon(g: Graph, w: Splitting, o: Oracle, path: seq<nat>, t: nat, p: nat)
    requires SplittingOk(g, w) && IsPath(g, path) && t < |path| && p in w.phis && path[t] == w.p.block(p)
    ensures Means(w, o, path, t, Recon(p))
    decreases t, Rank(w, path, t, Recon(p)), 1
  {
    var q, n := Split(w), w.p.width(p);
    Shaped(g, w, o, path, t, p);
    var args := NewInst(w, Recon(p)).args;
    forall k | 0 <= k < n
      ensures Arg(q, o, path, t, Recon(p), args[k]) == Eval(w.p, o, path, t, p).fs[k]
    {
      ArgIsEval(q, o, path, t, Recon(p), Field(p, k));
      Agree(g, w, o, path, t, Field(p, k));
    }
    assert Compute(q, o, path, t, Recon(p)).fs == Eval(w.p, o, path, t, p).fs;
  }

  lemma {:induction false} AgreeExt(g: Graph, w: Splitting, o: Oracle, path: seq<nat>, t: nat, b: nat, p: nat, k: nat)
    requires SplittingOk(g, w) && IsPath(g, path) && t < |path| && p in w.phis && path[t] == b
    requires w.p.inst(p).Phi? && b in w.p.inst(p).inc && w.p.inst(p).inc[b].Value?
    ensures Means(w, o, path, t, Ext(b, p, k))
    decreases t, Rank(w, path, t, Ext(b, p, k)), 1
  {
    var y := w.p.inst(p).inc[b].v;
    assert ValueOk(g, w, p) && ValueOk(g, w, y);
    SubstBefore(g, w, y);
    ArgIsEval(Split(w), o, path, t, Ext(b, p, k), Subst(w, y));
    AgreeUse(g, w, o, path, t, y, w.end + 2);
  }

  lemma SubstBefore(g: Graph, w: Splitting, y: nat)
    requires SplittingOk(g, w)
    ensures NewPos(w, Subst(w, y)) < w.end + 2
  {
    assert ValueOk(g, w, y);
  }

  /** An operand has the same value in both programs, wherever it dominates. */
  lemma {:induction false} AgreeUse(g: Graph, w: Splitting, o: Oracle, path: seq<nat>, t: nat, y: nat, limit: nat)
    requires SplittingOk(g, w) && IsPath(g, path) && t < |path| && Dom(g, w.p.block(y), path[t])
    requires path[t] == NewBlock(w, Subst(w, y)) ==> NewPos(w, Subst(w, y)) < limit
    ensures Eval(Split(w), o, path, t, Subst(w, y)) == Eval(w.p, o, path, t, y)
    decreases t, limit, 3
  {
    Agree(g, w, o, path, t, Subst(w, y));
    if Rewired(w, y) && y !in w.phis {
      assert ValueOk(g, w, y);
      var p := w.p.inst(y).x.v;
      var s := Persist(g, w.p, o, path, t, y, p);
    }
  }

  lemma DomTrans(g: Graph, a: nat, b: nat, c: nat)
    requires Dom(g, a, b) && Dom(g, b, c)
    ensures Dom(g, a, c)
  {
    forall path | IsPath(g, path) && path[|path| - 1] == c
      ensures a in path
    {
      var n :| 0 <= n < |path| && path[n] == b;
      DomHere(g, a, path, n);
    }
  }

  /** A field of a struct initializer is the current value of its argument. */
  lemma InitField(g: Graph, w: Splitting, o: Oracle, path: seq<nat>, t: nat, y: nat, k: nat)
    requires SplittingOk(g, w) && IsPath(g, path) && t < |path| && Dom(g, w.p.block(y), path[t])
    requires w.p.inst(y).Init? && k < |w.p.inst(y).args|
    ensures var x := w.p.inst(y).args[k];
            FieldOf(Eval(w.p, o, path, t, y), k) == if x.Undef? then Undefined else Eval(w.p, o, path, t, x.v)
    ensures w.p.inst(y).args[k].Value? ==> Dom(g, w.p.block(w.p.inst(y).args[k].v), path[t])
  {
    var args := w.p.inst(y).args;
    assert ValueOk(g, w, y) && Uses(g, w, y, args[k]);
    if args[k].Value? {
      var s := Persist(g, w.p, o, path, t, y, args[k].v);
      DomTrans(g, w.p.block(args[k].v), w.p.block(y), path[t]);
    } else {
      DomHere(g, w.p.block(y), path, t);
      var s := LastIn(path, t, w.p.block(y));
      EvalBack(w.p, o, path, s, t, y);
      assert Compute(w.p, o, path, s, y).fs[k] == Arg(w.p, o, path, s, y, args[k]);
    }
  }

  lemma {:induction false} AgreeField(g: Graph, w: Splitting, o: Oracle, path: seq<nat>, t: nat, p: nat, k: nat)
    requires SplittingOk(g, w) && IsPath(g, path) && t < |path| && p in w.phis && path[t] == w.p.block(p)
    ensures Means(w, o, path, t, Field(p, k))
    decreases t, Rank(w, path, t, Field(p, k)), 1
  {
    var inc := w.p.inst(p).inc;
    if t > 0 && path[t - 1] in inc && inc[path[t - 1]].Value? {
      var b := path[t - 1];
      var y := inc[b].v;
      assert ValueOk(g, w, p);
      Shaped(g, w, o, path, t - 1, y);
      assert Eval(w.p, o, path, t, p) == Eval(w.p, o, path, t - 1, y);
      FieldComing(g, w, o, path, t - 1, p, k);
    }
  }

  /** What a per-field phi receives at the end of step `t`. */
  lemma {:induction false} FieldComing(g: Graph, w: Splitting, o: Oracle, path: seq<nat>, t: nat, p: nat, k: nat)
    requires SplittingOk(g, w) && IsPath(g, path) && t < |path| && p in w.phis
    requires path[t] in w.p.inst(p).inc && w.p.inst(p).inc[path[t]].Value?
    ensures var y, x := w.p.inst(p).inc[path[t]].v, IncomingField(w, p, path[t], k);
            FieldOf(Eval(w.p, o, path, t, y), k) == if x.Undef? then Undefined else Eval(Split(w), o, path, t, x.v)
    decreases t, w.end + 5
  {
    var y := w.p.inst(p).inc[path[t]].v;
    assert ValueOk(g, w, p);
    if y in w.phis {
      Agree(g, w, o, path, t, Field(y, k));
    } else if w.p.inst(y).Init? && k < |w.p.inst(y).args| {
      InitField(g, w, o, path, t, y, k);
      var x := w.p.inst(y).args[k];
      if x.Value? {
        SubstBefore(g, w, x.v);
        AgreeUse(g, w, o, path, t, x.v, w.end + 2);
      }
    } else {
      Agree(g, w, o, path, t, Ext(path[t], p, k));
    }
  }

  /** The operands of an old instruction. */
  lemma {:induction false} AgreeArg(g: Graph, w: Splitting, o: Oracle, path: seq<nat>, t: nat, v: nat, x: Operand<nat>)
    requires SplittingOk(g, w) && IsPath(g, path) && t < |path| && path[t] == w.p.block(v) && Uses(g, w, v, x)
    ensures Arg(Split(w), o, path, t, Old(v), SubstOp(w, x)) == Arg(w.p, o, path, t, v, x)
    decreases t, Rank(w, path, t, Old(v)), 0
  {
    if x.Value? {
      ArgIsEval(w.p, o, path, t, v, x.v);
      ArgIsEval(Split(w), o, path, t, Old(v), Subst(w, x.v));
      AgreeUse(g, w, o, path, t, x.v, w.p.pos(v) + 2);
    }
  }

  lemma {:induction false} AgreeOld(g: Graph, w: Splitting, o: Oracle, path: seq<nat>, t: nat, v: nat)
    requires SplittingOk(g, w) && IsPath(g, path) && t < |path| && Kept(w, v) && path[t] == w.p.block(v)
    ensures Means(w, o, path, t, Old(v))
    decreases t, Rank(w, path, t, Old(v)), 1
  {
    var q := Split(w);
    assert ValueOk(g, w, v);
    match w.p.inst(v)
    case Phi(inc) =>
      if t > 0 && path[t - 1] in inc && inc[path[t - 1]].Value? {
        var y := inc[path[t - 1]].v;
        SubstBefore(g, w, y);
        AgreeUse(g, w, o, path, t - 1, y, w.end + 2);
      }
    case Op(f, args) =>
      forall i | 0 <= i < |args| ensures Arg(q, o, path, t, Old(v), SubstOp(w, args[i]))
          == Arg(w.p, o, path, t, v, args[i]) {
        AgreeArg(g, w, o, path, t, v, args[i]);
      }
      SameArgs(w, o, path, t, v, args);
    case Extract(x, k) => AgreeArg(g, w, o, path, t, v, x);
    case Init(args) =>
      forall i | 0 <= i < |args| ensures Arg(q, o, path, t, Old(v), SubstOp(w, args[i]))
          == Arg(w.p, o, path, t, v, args[i]) {
        AgreeArg(g, w, o, path, t, v, args[i]);
      }
      SameArgs(w, o, path, t, v, args);
  }

  lemma SameArgs(w: Splitting, o: Oracle, path: seq<nat>, t: nat, v: nat, args: seq<Operand<nat>>)
    requires t < |path|
    requires forall i ::
        0 <= i < |args| ==> Arg(Split(w), o, path, t, Old(v), SubstOp(w, args[i])) == Arg(w.p, o, path, t, v, args[i])
    ensures var new_ := seq(|args|, i requires 0 <= i < |args| => SubstOp(w, args[i]));
            var before := seq(|args|, i requires 0 <= i < |args| => Arg(w.p, o, path, t, v, args[i]));
            seq(|new_|, i requires 0 <= i < |new_| => Arg(Split(w), o, path, t, Old(v), new_[i])) == before
  {}

  // ----- the theorem -----

  /** After every step of every run: the per-field phis hold the fields of the struct phis, what the pass
      keeps has its old value, and every use reads what it read. */
  lemma SplitPreserves(g: Graph, w: Splitting, o: Oracle, path: seq<nat>, t: nat)
    requires SplittingOk(g, w) && IsPath(g, path) && t < |path|
    ensures forall p, k: nat ::
        p in w.phis ==> Eval(Split(w), o, path, t, Field(p, k)) == FieldOf(Eval(w.p, o, path, t, p), k)
    ensures forall p :: p in w.phis ==> Eval(Split(w), o, path, t, Recon(p)) == Eval(w.p, o, path, t, p)
    ensures forall v: nat :: Kept(w, v) ==> Eval(Split(w), o, path, t, Old(v)) == Eval(w.p, o, path, t, v)
    ensures forall v: nat ::
        Dom(g, w.p.block(v), path[t]) ==> Eval(Split(w), o, path, t, Subst(w, v)) == Eval(w.p, o, path, t, v)
  {
    forall p, k: nat | p in w.phis ensures Eval(Split(w), o, path, t, Field(p, k))
        == FieldOf(Eval(w.p, o, path, t, p), k) {
      Agree(g, w, o, path, t, Field(p, k));
    }
    forall p | p in w.phis ensures Eval(Split(w), o, path, t, Recon(p)) == Eval(w.p, o, path, t, p) {
      Agree(g, w, o, path, t, Recon(p));
    }
    forall v: nat | Kept(w, v) ensures Eval(Split(w), o, path, t, Old(v)) == Eval(w.p, o, path, t, v) {
      Agree(g, w, o, path, t, Old(v));
    }
    forall v: nat | Dom(g, w.p.block(v), path[t]) ensures Eval(Split(w), o, path, t, Subst(w, v))
        == Eval(w.p, o, path, t, v) {
      SubstBefore(g, w, v);
      AgreeUse(g, w, o, path, t, v, w.end + 2);
    }
  }

  // ----- what is left -----

  predicate HasOperand<V(==)>(i: Inst<V>, y: V) {
    match i
    case Phi(inc) => exists b :: b in inc && inc[b] == Value(y)
    case Op(_, args) => Value(y) in args
    case Extract(x, _) => x == Value(y)
    case Init(args) => Value(y) in args
  }

  /** The value is part of the new program: split phis and extractions from them are gone, and fields are
      extracted only from incoming values that are neither split phis nor struct initializers. */
  predicate Remains(w: Splitting, x: New) {
    match x
    case Old(v) =>
      && v !in w.phis
      && (match w.p.inst(v) case Extract(Value(p), _) => p !in w.phis case _ => true)
    case Field(p, k) => p in w.phis && k < w.p.width(p)
    case Recon(p) => p in w.phis
    case Ext(b, p, k) =>
      && p in w.phis && k < w.p.width(p)
      && (match w.p.inst(p)
          case Phi(inc) => b in inc && inc[b].Value? && inc[b].v !in w.phis && !w.p.inst(inc[b].v).Init?
          case _ => false)
  }

  /** Extractions from structs name an existing field. */
  ghost predicate FieldsExist(w: Splitting) {
    forall v: nat :: w.p.inst(v).Extract? && w.p.inst(v).x.Value? && w.p.width(w.p.inst(v).x.v) > 0 ==>
      w.p.inst(v).k < w.p.width(w.p.inst(v).x.v)
  }

  lemma SubstRemains(g: Graph, w: Splitting, v: nat)
    requires SplittingOk(g, w) && FieldsExist(w)
    ensures Remains(w, Subst(w, v))
  {}

  lemma OperandsRemain(g: Graph, w: Splitting, args: seq<Operand<nat>>, y: New)
    requires SplittingOk(g, w) && FieldsExist(w)
    requires Value(y) in seq(|args|, i requires 0 <= i < |args| => SubstOp(w, args[i]))
    ensures Remains(w, y)
  {
    var i :| 0 <= i < |args| && SubstOp(w, args[i]) == Value(y);
    SubstRemains(g, w, args[i].v);
  }

  lemma FieldRemains(g: Graph, w: Splitting, p: nat, b: nat, k: nat, y: New)
    requires SplittingOk(g, w) && FieldsExist(w) && p in w.phis && k < w.p.width(p)
    requires b in w.p.inst(p).inc && IncomingField(w, p, b, k) == Value(y)
    ensures Remains(w, y)
  {
    var v := w.p.inst(p).inc[b].v;
    assert ValueOk(g, w, p) && ValueOk(g, w, v);
    if v !in w.phis && w.p.inst(v).Init? { SubstRemains(g, w, w.p.inst(v).args[k].v); }
  }

  /** No value of the new program uses a split phi or an extraction from one, and per-field phis are scalars. */
  lemma NoneLeft(g: Graph, w: Splitting, x: New, y: New)
    requires SplittingOk(g, w) && FieldsExist(w) && Remains(w, x)
    ensures HasOperand(Split(w).inst(x), y) ==> Remains(w, y)
    ensures Split(w).inst(x).Phi? && Split(w).width(x) > 0 ==> x.Old? && w.p.inst(x.v).Phi?
  {
    var i := Split(w).inst(x);
    if HasOperand(i, y) {
      match x
      case Field(p, k) =>
        var b :| b in i.inc && i.inc[b] == Value(y);
        FieldRemains(g, w, p, b, k, y);
      case Ext(b, p, k) => SubstRemains(g, w, w.p.inst(p).inc[b].v);
      case Recon(p) =>
      case Old(v) => OldRemains(g, w, v, y);
    }
  }

  lemma OldRemains(g: Graph, w: Splitting, v: nat, y: New)
    requires SplittingOk(g, w) && FieldsExist(w) && HasOperand(Split(w).inst(Old(v)), y)
    ensures Remains(w, y)
  {
    var i := Split(w).inst(Old(v));
    match w.p.inst(v)
    case Phi(inc) =>
      var b :| b in i.inc && i.inc[b] == Value(y);
      SubstRemains(g, w, inc[b].v);
    case Op(_, args) => OperandsRemain(g, w, args, y);
    case Extract(z, _) => SubstRemains(g, w, z.v);
    case Init(args) => OperandsRemain(g, w, args, y);
  }
}
