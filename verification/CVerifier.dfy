/** The verifier of C expressions, and what legalization makes it accept. */
module CVerifier {
  import opened TwosComplement
  import opened Expressions
  import opened Legalization

  /** What the verifier demands of a node, what legalization also establishes for casts, null pointers and boolean
      extensions, how immediates are written, and what it needs of them. */
  datatype Rule = Pointers | Promotions | Immediates | Signs | Casts | Nulls | Booleans | Written | Standard

  predicate PointerFits(d: DataModel, t: Ty) { t == Ptr(d.pointer) }

  predicate NotPromoted(d: DataModel, t: Ty) { t.Int? && t.size >= d.int_ }

  predicate Fine(d: DataModel, rule: Rule, e: Ex)
    requires WellTyped(e)
  {
    match rule
    case Pointers => (
      match e
      case Addr(_, t) => PointerFits(d, t)
      case Node1(Deref(_), _, x) => PointerFits(d, x.ty)
      case Node2(PtrAdd(_, _, _), t, _, _) => PointerFits(d, t)
      case Node2(PtrDiff(_), _, l, _) => PointerFits(d, l.ty)
      case Node2(Subscript(_), _, l, _) => PointerFits(d, l.ty)
      case _ => true)
    case Promotions => (
      match e
      case Node1(Un(_), t, _) => NotPromoted(d, t)
      case Node2(Bin(_), t, _, _) => NotPromoted(d, t)
      case _ => true)
    case Immediates => e.Imm? ==> NotPromoted(d, e.ty)
    case Signs => (
      match e
      case Node2(Bin(op), _, l, _) => SignMatters(op) ==> Sign(l.ty) == Signed(op)
      case Node2(Compare(c), _, l, _) => Ordering(c) ==> Sign(l.ty) == c.signed
      case _ => true)
    case Casts => (
      match e
      case Node1(Cast(k), _, x) => (k == SignExtend ==> Sign(x.ty)) && (k == ZeroExtend ==> !Sign(x.ty))
      case _ => true)
    case Nulls => e.Null? ==> PointerFits(d, e.ty)
    case Booleans => (
      match e
      case Node1(Cast(k), t, _) => k == BoolExtend ==> t == IntTy(d)
      case _ => true)
    case Written => e.Imm? ==> e.ty.size in d.wide || !CanBeWritten(d, e.v, e.ty)
    case Standard => e.Imm? && e.ty.size < d.int_ ==> CanBeWritten(d, e.v, e.ty)
  }

  /** The immediate has the size of a standard type, or a supported size and a value that a standard type
      can hold. */
  predicate CanBeWritten(d: DataModel, v: nat, t: Ty)
    requires IsInt(t)
  {
    t.size in d.narrow || (t.size in d.supported && RequiredSize(d, v, t) in d.wide)
  }

  predicate Follows(d: DataModel, rule: Rule, e: Ex)
    requires WellTyped(e)
    decreases e, 1
  {
    Fine(d, rule, e) && KidsFollow(d, rule, e)
  }

  predicate KidsFollow(d: DataModel, rule: Rule, e: Ex)
    requires WellTyped(e)
    decreases e, 0
  {
    match e
    case Node1(_, _, x) => Follows(d, rule, x)
    case Node2(_, _, l, r) => Follows(d, rule, l) && Follows(d, rule, r)
    case _ => true
  }

  /** The C verifier: no pointer operation of another size, no promoting operation, no immediate below `int`,
      no mismatched sign. */
  predicate Accepted(d: DataModel, e: Ex)
    requires WellTyped(e)
  {
    Follows(d, Pointers, e) && Follows(d, Promotions, e) && Follows(d, Immediates, e) && Follows(d, Signs, e)
  }

  /** A cast on top changes none of the conditions. */
  lemma CastKeeps(d: DataModel, rule: Rule, e: Ex, t: Ty)
    requires WellTyped(e) && Convertible(e.ty, t)
    ensures Follows(d, rule, EmitCast(e, t)) == Follows(d, rule, e)
  {
    assert Fine(d, rule, EmitCast(e, t));
  }

  lemma CastsKeep(d: DataModel, rule: Rule, l: Ex, r: Ex, tl: Ty, tr: Ty)
    requires WellTyped(l) && WellTyped(r) && Convertible(l.ty, tl) && Convertible(r.ty, tr)
    ensures Follows(d, rule, EmitCast(l, tl)) == Follows(d, rule, l)
    ensures Follows(d, rule, EmitCast(r, tr)) == Follows(d, rule, r)
  {
    CastKeeps(d, rule, l, tl);
    CastKeeps(d, rule, r, tr);
  }

  /** Adapting makes a node fit if its operands do, and leaves immediates alone. */
  ghost predicate AdaptGood(d: DataModel, rule: Rule, e: Ex)
    requires ModelOk(d) && WellTyped(e)
  {
    ((rule.Pointers? || rule.Promotions? || rule.Nulls?) && KidsFollow(d, rule, e) ==> Follows(d, rule, Adapt(d, e)))
    && (rule.Standard? ==> Follows(d, rule, Adapt(d, e)) == Follows(d, rule, e))
  }

  lemma AdaptRule(d: DataModel, rule: Rule, e: Ex)
    requires ModelOk(d) && WellTyped(e)
    ensures AdaptGood(d, rule, e)
  {
    match e
    case Var(_, _) =>
    case Imm(_, _) =>
    case Addr(x, t) => if t != Ptr(d.pointer) { CastKeeps(d, rule, Addr(x, Ptr(d.pointer)), t); }
    case Null(t) => if t != Ptr(d.pointer) { CastKeeps(d, rule, Null(Ptr(d.pointer)), t); }
    case Node1(_, _, _) => AdaptRule1(d, rule, e);
    case Node2(g, _, _, _) =>
      if g.Bin? {
        AdaptBinRule(d, rule, e);
      } else if g.Compare? {
        AdaptCompareRule(d, rule, e);
      } else {
        AdaptRule2(d, rule, e);
      }
  }

  lemma AdaptRule1(d: DataModel, rule: Rule, e: Ex)
    requires ModelOk(d) && WellTyped(e) && e.Node1?
    ensures AdaptGood(d, rule, e)
  {
    var int_ := IntTy(d);
    match e.f
    case Un(_) =>
      if e.ty.size < d.int_ {
        CastKeeps(d, rule, e.e, int_);
        CastKeeps(d, rule, Node1(e.f, int_, EmitCast(e.e, int_)), e.ty);
      }
    case Cast(_) =>
    case Deref(_) => CastKeeps(d, rule, e.e, Ptr(d.pointer));
  }

  lemma AdaptCompareRule(d: DataModel, rule: Rule, e: Ex)
    requires ModelOk(d) && WellTyped(e) && e.Node2? && e.g.Compare?
    ensures AdaptGood(d, rule, e)
  {
    var n := Int(e.l.ty.size, true);
    CastsKeep(d, rule, e.l, e.r, n, n);
  }

  lemma AdaptRule2(d: DataModel, rule: Rule, e: Ex)
    requires ModelOk(d) && WellTyped(e) && e.Node2? && !e.g.Bin? && !e.g.Compare?
    ensures AdaptGood(d, rule, e)
  {
    var ptr := Ptr(d.pointer);
    match e.g
    case PtrAdd(_, _, _) => AdaptPointersRule(d, rule, e, ptr, Resized(d, e.l.ty), Resized(d, e.r.ty));
    case PtrDiff(_) => AdaptPointersRule(d, rule, e, Int(d.pointer, true), ptr, ptr);
    case Subscript(_) => CastKeeps(d, rule, e.l, ptr);
  }

  lemma AdaptBinRule(d: DataModel, rule: Rule, e: Ex)
    requires ModelOk(d) && WellTyped(e) && e.Node2? && e.g.Bin?
    ensures AdaptGood(d, rule, e)
  {
    if e.ty.size < d.int_ {
      CastKeeps(d, rule, e.l, IntTy(d));
      if !IsShift(e.g.op) { CastKeeps(d, rule, e.r, IntTy(d)); }
      CastKeeps(d, rule, PromotedBin(d, e), e.ty);
    }
  }

  lemma AdaptPointersRule(d: DataModel, rule: Rule, e: Ex, t: Ty, tl: Ty, tr: Ty)
    requires ModelOk(d) && WellTyped(e) && e.Node2? && Convertible(e.l.ty, tl) && Convertible(e.r.ty, tr)
    requires Convertible(t, e.ty) && Typed2(e.g, t, tl, tr) && (e.g.PtrAdd? || e.g.PtrDiff?)
    ensures var wide := EmitCast(Node2(e.g, t, EmitCast(e.l, tl), EmitCast(e.r, tr)), e.ty);
            Follows(d, rule, wide)
                == (Fine(d, rule, Node2(e.g, t, EmitCast(e.l, tl), EmitCast(e.r, tr))) && KidsFollow(d, rule, e))
  {
    CastsKeep(d, rule, e.l, e.r, tl, tr);
    CastKeeps(d, rule, Node2(e.g, t, EmitCast(e.l, tl), EmitCast(e.r, tr)), e.ty);
  }

  lemma RepresentRule(d: DataModel, rule: Rule, e: Ex)
    requires ModelOk(d) && WellTyped(e)
    ensures (rule.Pointers? || rule.Promotions? || rule.Nulls?) ==>
              Follows(d, rule, Represent(d, e)) == Follows(d, rule, e)
    ensures (rule.Booleans? || rule.Written?) && KidsFollow(d, rule, e) ==> Follows(d, rule, Represent(d, e))
    ensures rule.Immediates? ==>
              Follows(d, rule, Represent(d, e)) == (Fine(d, Standard, e) && KidsFollow(d, rule, e))
  {
    match e
    case Imm(v, t) => RepresentImm(d, rule, e);
    case Node1(Cast(BoolExtend), t, x) => if t != IntTy(d) { CastKeeps(d, rule, Node1(e.f, IntTy(d), x), t); }
    case _ =>
  }

  lemma RepresentImm(d: DataModel, rule: Rule, e: Ex)
    requires ModelOk(d) && WellTyped(e) && e.Imm?
    ensures (rule.Pointers? || rule.Promotions? || rule.Nulls? || rule.Booleans? || rule.Written?) ==>
              Follows(d, rule, Represent(d, e))
    ensures rule.Immediates? ==> Follows(d, rule, Represent(d, e)) == Fine(d, Standard, e)
  {
    var v, t := e.v, e.ty;
    if t.size !in d.wide {
      if t.size in d.narrow {
        CastKeeps(d, rule, Imm(Wrap(v, 8 * d.int_), IntTy(d)), t);
      } else if t.size in d.supported && RequiredSize(d, v, t) in d.wide {
        CastKeeps(d, rule, Imm(Wrap(v, 8 * RequiredSize(d, v, t)), Int(RequiredSize(d, v, t), true)), t);
      }
    }
  }

  ghost predicate MatchGood(d: DataModel, rule: Rule, e: Ex)
    requires WellTyped(e)
  {
    ((rule.Pointers? || rule.Promotions? || rule.Immediates? || rule.Nulls? || rule.Booleans? || rule.Written?) ==>
       Follows(d, rule, MatchSigns(e)) == Follows(d, rule, e))
    && ((rule.Signs? || rule.Casts?) && KidsFollow(d, rule, e) ==> Follows(d, rule, MatchSigns(e)))
  }

  lemma MatchRule(d: DataModel, rule: Rule, e: Ex)
    requires ModelOk(d) && WellTyped(e)
    ensures MatchGood(d, rule, e)
  {
    match e
    case Node1(Cast(k), t, x) => MatchCastRule(d, rule, e);
    case Node2(Bin(op), t, l, r) => MatchBinRule(d, rule, e);
    case Node2(Compare(c), t, l, r) => MatchCompareRule(d, rule, e);
    case _ =>
  }

  lemma MatchCastRule(d: DataModel, rule: Rule, e: Ex)
    requires WellTyped(e) && e.Node1? && e.f.Cast?
    ensures MatchGood(d, rule, e)
  {
    var k, x := e.f.k, e.e;
    if k == SignExtend || k == ZeroExtend { CastKeeps(d, rule, x, Resigned(x.ty, k == SignExtend)); }
  }

  lemma MatchBinRule(d: DataModel, rule: Rule, e: Ex)
    requires WellTyped(e) && e.Node2? && e.g.Bin?
    ensures MatchGood(d, rule, e)
  {
    var n := Resigned(e.ty, Signed(e.g.op));
    CastKeeps(d, rule, e.l, n);
    if !IsShift(e.g.op) { CastKeeps(d, rule, e.r, n); }
    CastKeeps(d, rule, ResignedBin(e), e.ty);
  }

  lemma MatchCompareRule(d: DataModel, rule: Rule, e: Ex)
    requires WellTyped(e) && e.Node2? && e.g.Compare?
    ensures MatchGood(d, rule, e)
  {
    if Ordering(e.g.c) {
      var n := Resigned(e.l.ty, e.g.c.signed);
      CastsKeep(d, rule, e.l, e.r, n, n);
    }
  }

  /** A rule that a stage establishes. */
  predicate Establishes(s: Stage, rule: Rule) {
    match s
    case Adapting => rule.Pointers? || rule.Promotions? || rule.Nulls?
    case Representing => rule.Booleans? || rule.Written?
    case Matching => rule.Signs? || rule.Casts?
  }

  /** A rule that a stage keeps, one way and the other. */
  predicate Keeps(s: Stage, rule: Rule) {
    match s
    case Adapting => rule.Standard?
    case Representing => rule.Pointers? || rule.Promotions? || rule.Nulls?
    case Matching => !rule.Signs? && !rule.Casts? && !rule.Standard?
  }

  lemma LocalRule(s: Stage, d: DataModel, rule: Rule, e: Ex)
    requires ModelOk(d) && WellTyped(e)
    ensures Establishes(s, rule) && KidsFollow(d, rule, e) ==> Follows(d, rule, Local(s, d, e))
    ensures Keeps(s, rule) ==> Follows(d, rule, Local(s, d, e)) == Follows(d, rule, e)
  {
    match s
    case Adapting => AdaptRule(d, rule, e);
    case Representing => RepresentRule(d, rule, e);
    case Matching => MatchRule(d, rule, e);
  }

  /** What a stage does for a rule. */
  ghost predicate RuleGood(s: Stage, d: DataModel, rule: Rule, e: Ex)
    requires ModelOk(d) && WellTyped(e)
  {
    (Establishes(s, rule) ==> Follows(d, rule, Rewrite(s, d, e)))
    && (Keeps(s, rule) ==> Follows(d, rule, Rewrite(s, d, e)) == Follows(d, rule, e))
  }

  /** A rule looks at an operation and at types, which rewriting the operands does not change. */
  lemma RewriteRule1(s: Stage, d: DataModel, rule: Rule, e: Ex)
    requires ModelOk(d) && WellTyped(e) && e.Node1? && RuleGood(s, d, rule, e.e)
    ensures RuleGood(s, d, rule, e)
  {
    var f := Node1(e.f, e.ty, Rewrite(s, d, e.e));
    assert Fine(d, rule, f) == Fine(d, rule, e);
    LocalRule(s, d, rule, f);
  }

  lemma RewriteRule2(s: Stage, d: DataModel, rule: Rule, e: Ex)
    requires ModelOk(d) && WellTyped(e) && e.Node2? && RuleGood(s, d, rule, e.l) && RuleGood(s, d, rule, e.r)
    ensures RuleGood(s, d, rule, e)
  {
    var f := Node2(e.g, e.ty, Rewrite(s, d, e.l), Rewrite(s, d, e.r));
    assert Fine(d, rule, f) == Fine(d, rule, e);
    LocalRule(s, d, rule, f);
  }

  lemma {:induction false} RewriteRule(s: Stage, d: DataModel, rule: Rule, e: Ex)
    requires ModelOk(d) && WellTyped(e)
    ensures RuleGood(s, d, rule, e)
    decreases e
  {
    match e
    case Node1(_, _, x) =>
      RewriteRule(s, d, rule, x);
      RewriteRule1(s, d, rule, e);
    case Node2(_, _, l, r) =>
      RewriteRule(s, d, rule, l);
      RewriteRule(s, d, rule, r);
      RewriteRule2(s, d, rule, e);
    case _ => LocalRule(s, d, rule, e);
  }

  lemma {:induction false} RepresentWritable(d: DataModel, e: Ex)
    requires ModelOk(d) && WellTyped(e)
    ensures Follows(d, Immediates, Rewrite(Representing, d, e)) == Follows(d, Standard, e)
  {
    match e
    case Node1(f, t, x) =>
      RepresentWritable(d, x);
      RepresentRule(d, Immediates, Node1(f, t, Rewrite(Representing, d, x)));
    case Node2(g, t, l, r) =>
      RepresentWritable(d, l);
      RepresentWritable(d, r);
      RepresentRule(d, Immediates, Node2(g, t, Rewrite(Representing, d, l), Rewrite(Representing, d, r)));
    case _ => RepresentRule(d, Immediates, e);
  }

  /** After all stages the C verifier accepts exactly the expressions whose immediates can be written.
      Extensions have operands of their sign, null pointers the target's size, and booleans extend to `int`. */
  lemma LegalizeAccepted(d: DataModel, e: Ex)
    requires ModelOk(d) && WellTyped(e)
    ensures Accepted(d, Legalize(d, e)) <==> Follows(d, Standard, e)
    ensures Follows(d, Casts, Legalize(d, e)) && Follows(d, Nulls, Legalize(d, e))
    ensures Follows(d, Booleans, Legalize(d, e))
  {
    var adapted := Rewrite(Adapting, d, e);
    var represented := Rewrite(Representing, d, adapted);
    RewriteRule(Adapting, d, Standard, e);
    RepresentWritable(d, adapted);
    RewriteRule(Matching, d, Immediates, represented);
    RewriteRule(Adapting, d, Pointers, e);
    RewriteRule(Representing, d, Pointers, adapted);
    RewriteRule(Matching, d, Pointers, represented);
    RewriteRule(Adapting, d, Promotions, e);
    RewriteRule(Representing, d, Promotions, adapted);
    RewriteRule(Matching, d, Promotions, represented);
    RewriteRule(Matching, d, Signs, represented);
    RewriteRule(Matching, d, Casts, represented);
    RewriteRule(Adapting, d, Nulls, e);
    RewriteRule(Representing, d, Nulls, adapted);
    RewriteRule(Matching, d, Nulls, represented);
    RewriteRule(Representing, d, Booleans, adapted);
    RewriteRule(Matching, d, Booleans, represented);
  }

  // ----- nothing is done without need -----

  /** The expression follows all rules that legalization establishes. */
  ghost predicate Legalized(d: DataModel, e: Ex)
    requires WellTyped(e)
  {
    forall rule :: rule != Standard ==> Follows(d, rule, e)
  }

  lemma LocalUnchanged(s: Stage, d: DataModel, e: Ex)
    requires ModelOk(d) && WellTyped(e) && forall rule :: rule != Standard ==> Fine(d, rule, e)
    ensures Local(s, d, e) == e
  {
    assert Fine(d, Pointers, e) && Fine(d, Promotions, e) && Fine(d, Signs, e) && Fine(d, Casts, e);
    assert Fine(d, Nulls, e) && Fine(d, Booleans, e) && Fine(d, Written, e);
  }

  lemma KidFollows(d: DataModel, rule: Rule, e: Ex)
    requires WellTyped(e) && Follows(d, rule, e)
    ensures e.Node1? ==> Follows(d, rule, e.e)
    ensures e.Node2? ==> Follows(d, rule, e.l) && Follows(d, rule, e.r)
  {}

  lemma LegalizedHere(d: DataModel, e: Ex)
    requires WellTyped(e) && Legalized(d, e)
    ensures forall rule :: rule != Standard ==> Fine(d, rule, e)
    ensures e.Node1? ==> Legalized(d, e.e)
    ensures e.Node2? ==> Legalized(d, e.l) && Legalized(d, e.r)
  {
    forall rule | rule != Standard ensures Fine(d, rule, e) { assert Follows(d, rule, e); }
    if e.Node1? {
      forall rule | rule != Standard ensures Follows(d, rule, e.e) { KidFollows(d, rule, e); }
    }
    if e.Node2? {
      forall rule | rule != Standard ensures Follows(d, rule, e.l) && Follows(d, rule, e.r) { KidFollows(d, rule, e); }
    }
  }

  lemma {:induction false} StageUnchanged(s: Stage, d: DataModel, e: Ex)
    requires ModelOk(d) && WellTyped(e) && Legalized(d, e)
    ensures Rewrite(s, d, e) == e
  {
    LegalizedHere(d, e);
    LocalUnchanged(s, d, e);
    match e
    case Node1(_, _, x) => StageUnchanged(s, d, x);
    case Node2(_, _, l, r) =>
      StageUnchanged(s, d, l);
      StageUnchanged(s, d, r);
    case _ =>
  }

  /** Legalization changes nothing that is legal already; in particular, doing it twice is doing it once. */
  lemma LegalizeTwice(d: DataModel, e: Ex)
    requires ModelOk(d) && WellTyped(e)
    ensures Legalized(d, e) ==> Legalize(d, e) == e
    ensures Follows(d, Standard, e) ==> Legalized(d, Legalize(d, e)) && Legalize(d, Legalize(d, e)) == Legalize(d, e)
  {
    if Legalized(d, e) {
      StageUnchanged(Adapting, d, e);
      StageUnchanged(Representing, d, e);
      StageUnchanged(Matching, d, e);
    }
    if Follows(d, Standard, e) {
      var r := Legalize(d, e);
      LegalizeAccepted(d, e);
      var represented := Rewrite(Representing, d, Rewrite(Adapting, d, e));
      RewriteRule(Representing, d, Written, Rewrite(Adapting, d, e));
      RewriteRule(Matching, d, Written, represented);
      forall rule | rule != Standard ensures Follows(d, rule, r) {}
      StageUnchanged(Adapting, d, r);
      StageUnchanged(Representing, d, r);
      StageUnchanged(Matching, d, r);
    }
  }
}
