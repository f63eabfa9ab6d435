/** Dropping casts that C performs by itself. */
module CastElision {
  import opened Wrappers
  import opened TwosComplement
  import opened Expressions

  // ----- the usual arithmetic conversions -----

  function Promote(int_: nat, t: Ty): Ty { if t.Int? && t.size < int_ then Int(int_, true) else t }

  function MaxSize(ts: seq<Ty>): nat
    requires AllInts(ts)
  {
    if ts == [] then 0 else Larger(MaxSize(ts[..|ts| - 1]), ts[|ts| - 1].size)
  }

  function Larger(a: nat, b: nat): nat { if a < b then b else a }

  predicate AllInts(ts: seq<Ty>) { forall i :: 0 <= i < |ts| ==> IsInt(ts[i]) }

  /** Some type of the largest size is unsigned. */
  predicate MaxUnsigned(ts: seq<Ty>)
    requires AllInts(ts)
  {
    exists i :: 0 <= i < |ts| && ts[i].size == MaxSize(ts) && !ts[i].signed
  }

  /** The common type of section 6.3.1.8 of ISO/IEC 9899:2011, where rank is size. */
  function Usual(int_: nat, ts: seq<Ty>): Ty
    requires AllInts(ts)
  {
    if MaxSize(ts) < int_ then Int(int_, true) else Int(MaxSize(ts), !MaxUnsigned(ts))
  }

  // ----- what the pass computes -----

  predicate PowerOfTwo(n: nat) { exists k: nat :: k <= n && n == Pow2(k) }

  lemma PowerFacts(m: nat, n: nat)
    requires PowerOfTwo(m) && PowerOfTwo(n)
    ensures m < n ==> 2 * m <= n
    ensures m == 1 || m % 2 == 0
  {
    var j: nat :| j <= m && m == Pow2(j);
    var k: nat :| k <= n && n == Pow2(k);
    if m < n {
      if k <= j { Pow2Monotone(k, j); }
      Pow2Monotone(j + 1, k);
    }
  }

  /** Bitwise or with a flag. */
  function OrFlag(n: nat, flag: bool): nat { if flag && n % 2 == 0 then n + 1 else n }

  /** The size stands for the size and sign of the common type: it is odd for an unsigned one. */
  function Encoded(ts: seq<Ty>): nat
    requires AllInts(ts)
  {
    OrFlag(MaxSize(ts), MaxUnsigned(ts))
  }

  predicate Sizes(int_: nat, ts: seq<Ty>) {
    AllInts(ts) && PowerOfTwo(int_) && int_ >= 2 && forall i :: 0 <= i < |ts| ==> PowerOfTwo(ts[i].size)
  }

  lemma MaxSizeFacts(ts: seq<Ty>)
    requires AllInts(ts) && ts != []
    ensures exists i :: 0 <= i < |ts| && ts[i].size == MaxSize(ts)
    ensures forall i :: 0 <= i < |ts| ==> ts[i].size <= MaxSize(ts)
  {
    var n := |ts| - 1;
    assert ts[n].size <= MaxSize(ts);
    if n == 0 {
      assert MaxSize(ts[..0]) == 0 && ts[0].size == MaxSize(ts);
    } else {
      MaxSizeFacts(ts[..n]);
      forall i | 0 <= i < |ts| ensures ts[i].size <= MaxSize(ts) { if i < n { assert ts[i] == ts[..n][i]; } }
      if MaxSize(ts) == ts[n].size {
      } else {
        var i :| 0 <= i < n && ts[..n][i].size == MaxSize(ts[..n]);
        assert ts[i].size == MaxSize(ts);
      }
    }
  }

  /** One more type. */
  lemma EncodedStep(int_: nat, ts: seq<Ty>, t: Ty)
    requires IsInt(t) && Sizes(int_, ts + [t]) && AllInts(ts)
    ensures var m := Encoded(ts);
            var n := if t.size > m then t.size else m;
            Encoded(ts + [t]) == if t.size == n then OrFlag(n, !t.signed) else n
  {
    var new_ := ts + [t];
    assert new_[..|ts|] == ts && new_[|ts|] == t;
    assert forall i :: 0 <= i < |ts| ==> new_[i] == ts[i];
    if ts == [] {
      assert MaxUnsigned(new_) <==> !t.signed by { if !t.signed { assert new_[0].size == MaxSize(new_); } }
    } else {
      MaxSizeFacts(ts);
      var j :| 0 <= j < |ts| && ts[j].size == MaxSize(ts);
      assert PowerOfTwo(new_[j].size) && PowerOfTwo(new_[|ts|].size);
      PowerFacts(MaxSize(ts), t.size);
      PowerFacts(t.size, MaxSize(ts));
      UnsignedStep(ts, t);
    }
  }

  lemma UnsignedStep(ts: seq<Ty>, t: Ty)
    requires IsInt(t) && AllInts(ts + [t]) && AllInts(ts)
    ensures var new_ := ts + [t];
            MaxUnsigned(new_) <==>
                (t.size == MaxSize(new_) && !t.signed) || (MaxSize(ts) == MaxSize(new_) && MaxUnsigned(ts))
  {
    var new_ := ts + [t];
    assert new_[..|ts|] == ts && new_[|ts|] == t;
    if MaxUnsigned(new_) {
      var i :| 0 <= i < |new_| && new_[i].size == MaxSize(new_) && !new_[i].signed;
      if i < |ts| { assert ts[i] == new_[i]; MaxSizeFacts(ts); }
    }
    if MaxSize(ts) == MaxSize(new_) && MaxUnsigned(ts) {
      var i :| 0 <= i < |ts| && ts[i].size == MaxSize(ts) && !ts[i].signed;
      assert new_[i] == ts[i];
    }
  }

  /** `getCommonIntegerType`: the sign goes into the lowest bit of the size. */
  method CommonIntegerType(int_: nat, ts: seq<Ty>) returns (t: Ty)
    requires Sizes(int_, ts) && ts != []
    ensures t == Int(if Encoded(ts) < int_ then int_ else Encoded(ts), true)
  {
    var size := 0;
    var i := 0;
    assert ts[..0] == [];
    while i < |ts|
      invariant 0 <= i <= |ts| && AllInts(ts[..i]) && size == Encoded(ts[..i])
    {
      assert ts[..i + 1] == ts[..i] + [ts[i]];
      assert Sizes(int_, ts[..i] + [ts[i]]);
      EncodedStep(int_, ts[..i], ts[i]);
      if ts[i].size > size { size := ts[i].size; }
      if ts[i].size == size { size := OrFlag(size, !ts[i].signed); }
      i := i + 1;
    }
    assert ts[..|ts|] == ts;
    if size < int_ { size := int_; }
    t := Int(size, true);
  }

  function Operator(int_: nat, ts: seq<Ty>): Ty
    requires AllInts(ts)
  {
    Int(if Encoded(ts) < int_ then int_ else Encoded(ts), true)
  }

  /** The encoded operator types are equal exactly when the usual arithmetic conversions agree. */
  lemma OperatorIsUsual(int_: nat, ts: seq<Ty>, us: seq<Ty>)
    requires Sizes(int_, ts) && Sizes(int_, us) && ts != [] && us != []
    ensures Operator(int_, ts) == Operator(int_, us) <==> Usual(int_, ts) == Usual(int_, us)
  {
    MaxSizeFacts(ts);
    MaxSizeFacts(us);
    var i :| 0 <= i < |ts| && ts[i].size == MaxSize(ts);
    var j :| 0 <= j < |us| && us[j].size == MaxSize(us);
    PowerFacts(MaxSize(ts), int_);
    PowerFacts(MaxSize(us), int_);
    PowerFacts(int_, int_);
  }

  // ----- dropping casts -----

  /** Takes the casts of the operands away one by one, as long as the operator keeps its type; `casts[i]`
      is the type under the cast of operand `i`, if it has one. */
  method ElideArithmeticCasts(int_: nat, types: seq<Ty>, casts: seq<Option<Ty>>)
    returns (final: seq<Ty>, elided: seq<bool>)
    requires types != [] && |casts| == |types| && Sizes(int_, types)
    requires forall i :: 0 <= i < |casts| && casts[i].Some? ==> IsInt(casts[i].value) && PowerOfTwo(casts[i].value.size)
    ensures |final| == |elided| == |types| && Sizes(int_, final)
    ensures Usual(int_, final) == Usual(int_, types)
    ensures forall i :: 0 <= i < |types| ==> if elided[i] then casts[i] == Some(final[i]) else final[i] == types[i]
    ensures forall i :: 0 <= i < |types| ==> elided[i] == (casts[i].Some? && !DropChanges(int_, types, final, casts, i))
  {
    var operator := CommonIntegerType(int_, types);
    final := types;
    elided := [];
    var i := 0;
    while i < |types|
      invariant 0 <= i <= |types| && |final| == |types| && |elided| == i && Sizes(int_, final)
      invariant Operator(int_, final) == operator == Operator(int_, types)
      invariant forall j :: 0 <= j < i ==> if elided[j] then casts[j] == Some(final[j]) else final[j] == types[j]
      invariant forall j :: i <= j < |types| ==> final[j] == types[j]
      invariant forall j :: 0 <= j < i ==> elided[j] == (casts[j].Some? && !DropChanges(int_, types, final, casts, j))
    {
      var drop := false;
      if casts[i].Some? {
        var attempt := final[i := casts[i].value];
        assert Sizes(int_, attempt);
        var t := CommonIntegerType(int_, attempt);
        OperatorIsUsual(int_, attempt, types);
        assert attempt == final[..i] + [casts[i].value] + types[i + 1..];
        drop := t == operator;
        if drop { final := attempt; }
      }
      elided, i := elided + [drop], i + 1;
    }
    OperatorIsUsual(int_, final, types);
  }

  /** Dropping this cast as well, after the earlier ones, would change the common type. */
  ghost predicate DropChanges(int_: nat, types: seq<Ty>, final: seq<Ty>, casts: seq<Option<Ty>>, i: nat)
    requires i < |types| == |final| == |casts| && casts[i].Some?
  {
    var attempt := final[..i] + [casts[i].value] + types[i + 1..];
    AllInts(attempt) && AllInts(types) && Usual(int_, attempt) != Usual(int_, types)
  }

  // ----- two operands -----

  lemma UsualTwo(int_: nat, t: Ty, u: Ty)
    requires IsInt(t) && IsInt(u)
    ensures AllInts([t, u]) && MaxSize([t, u]) == Larger(t.size, u.size)
    ensures MaxUnsigned([t, u]) <==>
            (t.size >= u.size && !t.signed) || (u.size >= t.size && !u.signed)
  {
    var ts := [t, u];
    assert ts[..1] == [t] && ts[1] == u && [t][..0] == [];
    assert MaxSize([]) == 0;
    assert MaxSize([t]) == Larger(MaxSize([t][..0]), t.size) == t.size;
    assert MaxSize(ts) == Larger(MaxSize(ts[..1]), u.size);
    if t.size >= u.size && !t.signed { assert ts[0].size == MaxSize(ts) && !ts[0].signed; }
    if u.size >= t.size && !u.signed { assert ts[1].size == MaxSize(ts) && !ts[1].signed; }
  }

  /** The common type of two operands. */
  function Common(int_: nat, t: Ty, u: Ty): Ty {
    if IsInt(t) && IsInt(u) then Usual(int_, [t, u]) else t
  }

  lemma CommonCases(int_: nat, t: Ty, u: Ty)
    requires IsInt(t) && IsInt(u)
    ensures var c := Common(int_, t, u);
            if t.size < int_ && u.size < int_ then c == Int(int_, true)
            else c == Int(Larger(t.size, u.size), !((t.size >= u.size && !t.signed) || (u.size >= t.size && !u.signed)))
  {
    UsualTwo(int_, t, u);
  }
}
