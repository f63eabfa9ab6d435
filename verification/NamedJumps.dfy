/** The jumps of a program, and what becomes of each of them. */
module NamedJumps {
  import opened Wrappers
  import opened Clift
  import opened Static
  import opened Rules
  import opened Conditions
  import opened JumpLaws
  import opened NewLoop

  /** The jumps of a block, wherever they stand in it. */
  function AllJumps(b: Block): (js: set<Stmt>)
    ensures forall j :: j in js ==> j.Jump?
  {
    match b case Nil => {} case Cons(a, s) => JumpsOf(a) + AllJumps(s)
  }

  function JumpsOf(a: Stmt): (js: set<Stmt>)
    ensures forall j :: j in js ==> j.Jump?
  {
    match a case Jump(_, _, _) => {a} case Nest(_, rs) => AllJumpsIn(rs) case _ => {}
  }

  function AllJumpsIn(rs: Regions): (js: set<Stmt>)
    ensures forall j :: j in js ==> j.Jump?
  {
    match rs case One(b) => AllJumps(b) case More(b, r) => AllJumps(b) + AllJumpsIn(r)
  }

  function Ids(js: set<Stmt>): set<nat>
    requires forall j :: j in js ==> j.Jump?
  {
    set j | j in js :: j.id
  }

  lemma IdsUnion(x: set<Stmt>, y: set<Stmt>)
    requires (forall j :: j in x ==> j.Jump?) && forall j :: j in y ==> j.Jump?
    ensures Ids(x + y) == Ids(x) + Ids(y)
  {
    forall j | j in x + y ensures j.id in Ids(x) + Ids(y) {}
    forall j | j in x ensures j.id in Ids(x + y) { assert j in x + y; }
    forall j | j in y ensures j.id in Ids(x + y) { assert j in x + y; }
  }

  lemma {:induction false} NamesAreIds(b: Block)
    ensures Names(b) == Ids(AllJumps(b))
  {
    if b.Cons? {
      NamesAreIds(b.tl);
      NamesAreIdsOf(b.hd);
      IdsUnion(JumpsOf(b.hd), AllJumps(b.tl));
    }
  }

  lemma {:induction false} NamesAreIdsOf(a: Stmt)
    ensures NamesOf(a) == Ids(JumpsOf(a))
  {
    if a.Nest? {
      NamesAreIdsIn(a.rs);
    } else if a.Jump? {
      assert a in JumpsOf(a);
    }
  }

  lemma {:induction false} NamesAreIdsIn(rs: Regions)
    ensures NamesIn(rs) == Ids(AllJumpsIn(rs))
  {
    NamesAreIds(rs.b);
    if rs.More? {
      NamesAreIdsIn(rs.rest);
      IdsUnion(AllJumps(rs.b), AllJumpsIn(rs.rest));
    }
  }

  lemma {:induction false} GotosAreJumps(b: Block, id: nat, l: nat)
    ensures (id, l) in Gotos(b) <==> Jump(id, Goto, l) in AllJumps(b)
  {
    if b.Cons? {
      GotosAreJumps(b.tl, id, l);
      if b.hd.Nest? { GotosAreJumpsIn(b.hd.rs, id, l); }
    }
  }

  lemma {:induction false} GotosAreJumpsIn(rs: Regions, id: nat, l: nat)
    ensures (id, l) in GotosIn(rs) <==> Jump(id, Goto, l) in AllJumpsIn(rs)
  {
    GotosAreJumps(rs.b, id, l);
    if rs.More? { GotosAreJumpsIn(rs.rest, id, l); }
  }

  lemma {:induction false} AllJumpsApp(x: Block, y: Block)
    ensures AllJumps(App(x, y)) == AllJumps(x) + AllJumps(y)
  {
    if x.Cons? { AllJumpsApp(x.tl, y); }
  }

  lemma {:induction false} TailJumps(l: nat, b: Block)
    requires Tail(l, b).Some?
    ensures AllJumps(Tail(l, b).value) <= AllJumps(b)
  {
    if b.hd == Label(l) {
    } else if b.hd.Nest? && TailIn(l, b.hd.rs).Some? {
      TailJumpsIn(l, b.hd.rs);
    } else {
      TailJumps(l, b.tl);
    }
  }

  lemma {:induction false} TailJumpsIn(l: nat, rs: Regions)
    requires TailIn(l, rs).Some?
    ensures AllJumps(TailIn(l, rs).value) <= AllJumpsIn(rs)
  {
    if Tail(l, rs.b).Some? { TailJumps(l, rs.b); } else { TailJumpsIn(l, rs.rest); }
  }

  lemma TakeJumps(n: nat, s: Block)
    ensures AllJumps(Take(n, s)) <= AllJumps(s)
  {
    TakeDrop(n, s);
    AllJumpsApp(Take(n, s), Drop(n, s));
  }

  /** The name determines the jump. */
  lemma {:induction false} OneOfAName(b: Block, j: Stmt, k: Stmt)
    requires DistinctNames(b) && j in AllJumps(b) && k in AllJumps(b) && j.id == k.id
    ensures j == k
  {
    var Cons(a, s) := b;
    NamesAreIdsOf(a);
    NamesAreIds(s);
    if j in AllJumps(s) {
      assert j.id in Names(s) && k.id !in NamesOf(a);
      OneOfAName(s, j, k);
    } else if a.Nest? {
      assert j.id in NamesOf(a) && k !in AllJumps(s);
      OneOfANameIn(a.rs, j, k);
    }
  }

  lemma {:induction false} OneOfANameIn(rs: Regions, j: Stmt, k: Stmt)
    requires DistinctNamesIn(rs) && j in AllJumpsIn(rs) && k in AllJumpsIn(rs) && j.id == k.id
    ensures j == k
  {
    NamesAreIds(rs.b);
    if rs.More? { NamesAreIdsIn(rs.rest); }
    if j in AllJumps(rs.b) {
      assert j.id in Names(rs.b);
      OneOfAName(rs.b, j, k);
    } else {
      assert j.id in NamesIn(rs.rest) && k !in AllJumps(rs.b);
      OneOfANameIn(rs.rest, j, k);
    }
  }

  // ----- erasing and redirecting -----

  /** What becomes of a jump; nothing if it is erased. */
  function After(r: Rule, j: Stmt): Option<Stmt>
    requires r.Jumps? && j.Jump?
  {
    if j.id !in r.fate then Some(j)
    else match r.fate[j.id] case Erase => None case Retarget(kind, l) => Some(Jump(j.id, kind, l))
  }

  lemma {:induction false} JumpsAfter(r: Rule, b: Block, j: Stmt)
    requires r.Jumps? && j in AllJumps(b) && After(r, j).Some?
    ensures After(r, j).value in AllJumps(Apply(r, b))
  {
    var Cons(a, s) := b;
    if j in AllJumps(s) { JumpsAfter(r, s, j); }
    if Site(r, a) {
      AllJumpsApp(Local(r, a, Nil), Apply(r, s));
      if j == a { assert Local(r, a, Nil) == Single(After(r, j).value); }
    } else if a.Nest? && j in AllJumpsIn(a.rs) {
      JumpsAfterIn(r, a.rs, j);
    }
  }

  lemma {:induction false} JumpsAfterIn(r: Rule, rs: Regions, j: Stmt)
    requires r.Jumps? && j in AllJumpsIn(rs) && After(r, j).Some?
    ensures After(r, j).value in AllJumpsIn(ApplyIn(r, rs))
  {
    if j in AllJumps(rs.b) { JumpsAfter(r, rs.b, j); } else { JumpsAfterIn(r, rs.rest, j); }
  }

  /** An erased jump is gone. */
  lemma {:induction false} ErasedGone(r: Rule, b: Block, id: nat)
    requires r.Jumps? && id in r.fate && r.fate[id].Erase?
    ensures id !in Names(Apply(r, b))
  {
    if b.Cons? {
      var Cons(a, s) := b;
      ErasedGone(r, s, id);
      if Site(r, a) {
        NamesApp(Local(r, a, Nil), Apply(r, s));
        if r.fate[a.id].Retarget? { JumpSets(Local(r, a, Nil).hd); }
      } else if a.Nest? {
        ErasedGoneIn(r, a.rs, id);
      }
    }
  }

  lemma {:induction false} ErasedGoneIn(r: Rule, rs: Regions, id: nat)
    requires r.Jumps? && id in r.fate && r.fate[id].Erase?
    ensures id !in NamesIn(ApplyIn(r, rs))
  {
    ErasedGone(r, rs.b, id);
    if rs.More? { ErasedGoneIn(r, rs.rest, id); }
  }

  /** Code without jumps of the rule stays as it is. */
  lemma {:induction false} JumpsElsewhere(r: Rule, b: Block)
    requires r.Jumps? && Plain(b) && Names(b) !! r.fate.Keys
    ensures Apply(r, b) == b
  {
    if b.Cons? {
      Unfold(b.hd, b.tl);
      JumpsElsewhere(r, b.tl);
      if b.hd.Nest? { JumpsElsewhereIn(r, b.hd.rs); }
    }
  }

  lemma {:induction false} JumpsElsewhereIn(r: Rule, rs: Regions)
    requires r.Jumps? && PlainIn(rs) && NamesIn(rs) !! r.fate.Keys
    ensures ApplyIn(r, rs) == rs
  {
    JumpsElsewhere(r, rs.b);
    if rs.More? { JumpsElsewhereIn(r, rs.rest); }
  }

  /** Two rules for different jumps are one. */
  lemma {:induction false} Merge(x: map<nat, Fate>, y: map<nat, Fate>, b: Block)
    requires x.Keys !! y.Keys && Plain(b)
    ensures Apply(Jumps(y), Apply(Jumps(x), b)) == Apply(Jumps(x + y), b)
  {
    if b.Cons? {
      var Cons(a, s) := b;
      Merge(x, y, s);
      if Site(Jumps(x), a) {
        var u := Local(Jumps(x), a, Nil);
        assert u == Local(Jumps(x + y), a, Nil);
        JumpsApp(Jumps(y), u, Apply(Jumps(x), s));
        assert Apply(Jumps(y), u) == u;
      } else {
        if a.Nest? { MergeIn(x, y, a.rs); }
        assert Apply(Jumps(x), b) == Cons(ApplyStmt(Jumps(x), a), Apply(Jumps(x), s));
      }
    }
  }

  lemma {:induction false} MergeIn(x: map<nat, Fate>, y: map<nat, Fate>, rs: Regions)
    requires x.Keys !! y.Keys && PlainIn(rs)
    ensures ApplyIn(Jumps(y), ApplyIn(Jumps(x), rs)) == ApplyIn(Jumps(x + y), rs)
  {
    Merge(x, y, rs.b);
    if rs.More? { MergeIn(x, y, rs.rest); }
  }

  /** Erasing labels touches no jump. */
  lemma {:induction false} DropJumps(r: Rule, b: Block)
    requires r.DropLabels? && Plain(b)
    ensures AllJumps(Apply(r, b)) == AllJumps(b)
  {
    if b.Cons? {
      DropJumps(r, b.tl);
      if Site(r, b.hd) {
        assert App(Nil, Apply(r, b.tl)) == Apply(r, b.tl);
      } else if b.hd.Nest? {
        DropJumpsIn(r, b.hd.rs);
      }
    }
  }

  lemma {:induction false} DropJumpsIn(r: Rule, rs: Regions)
    requires r.DropLabels? && PlainIn(rs)
    ensures AllJumpsIn(ApplyIn(r, rs)) == AllJumpsIn(rs)
  {
    DropJumps(r, rs.b);
    if rs.More? { DropJumpsIn(r, rs.rest); }
  }

  // ----- building a loop -----

  /** The loop is what stands behind its label. */
  lemma {:induction false} EnloopOwnTail(r: Rule, b: Block)
    requires FreshFor(r, b) && Plain(b) && Distinct(b) && Tail(r.l, b).Some? && r.n <= Len(Tail(r.l, b).value)
    requires Ok(r, b)
    ensures var s := Tail(r.l, b).value; Tail(r.l, Apply(r, b)) == Some(Cons(LoopOf(r, s), Drop(r.n, s)))
  {
    Unfold(b.hd, b.tl);
    var Cons(a, s) := b;
    if a == Label(r.l) {
      EnloopHere(r, s);
    } else if a.Nest? && TailIn(r.l, a.rs).Some? {
      EnloopOwnTailIn(r, a.rs);
    } else {
      EnloopOwnTail(r, s);
      if a.Nest? {
        TailOrderIn(r.l, a.rs);
        EnloopCleanIn(r, a.rs);
        ApplyCleanIn(r, a.rs);
      }
    }
  }

  lemma {:induction false} EnloopOwnTailIn(r: Rule, rs: Regions)
    requires FreshForIn(r, rs) && PlainIn(rs) && DistinctIn(rs) && TailIn(r.l, rs).Some?
    requires r.n <= Len(TailIn(r.l, rs).value) && OkIn(r, rs)
    ensures var s := TailIn(r.l, rs).value; TailIn(r.l, ApplyIn(r, rs)) == Some(Cons(LoopOf(r, s), Drop(r.n, s)))
  {
    if Tail(r.l, rs.b).Some? {
      EnloopOwnTail(r, rs.b);
    } else {
      TailOrder(r.l, rs.b);
      EnloopClean(r, rs.b);
      ApplyClean(r, rs.b, Nil);
      EnloopOwnTailIn(r, rs.rest);
    }
  }

  /** Every jump is still there. */
  lemma {:induction false} EnloopJumps(r: Rule, b: Block)
    requires FreshFor(r, b) && Plain(b) && Distinct(b) && Ok(r, b)
    ensures AllJumps(b) <= AllJumps(Apply(r, b))
  {
    if b.Cons? {
      Unfold(b.hd, b.tl);
      var Cons(a, s) := b;
      if a == Label(r.l) {
        EnloopHere(r, s);
        LoopJumps(r, s);
      } else {
        EnloopJumps(r, s);
        if a.Nest? { EnloopJumpsIn(r, a.rs); }
      }
    }
  }

  lemma {:induction false} EnloopJumpsIn(r: Rule, rs: Regions)
    requires FreshForIn(r, rs) && PlainIn(rs) && DistinctIn(rs) && OkIn(r, rs)
    ensures AllJumpsIn(rs) <= AllJumpsIn(ApplyIn(r, rs))
  {
    EnloopJumps(r, rs.b);
    if rs.More? { EnloopJumpsIn(r, rs.rest); }
  }

  lemma LoopJumps(r: Rule, s: Block)
    requires r.Enloop?
    ensures AllJumps(Cons(LoopOf(r, s), Drop(r.n, s))) == AllJumps(s) + AllJumps(LeaveBlock(r.leave))
  {
    var m, rest, v := Take(r.n, s), Drop(r.n, s), LeaveBlock(r.leave);
    TakeDrop(r.n, s);
    AllJumpsApp(m, rest);
    AllJumpsApp(m, v);
    assert AllJumpsIn(One(App(m, v))) == AllJumps(App(m, v));
    assert JumpsOf(LoopOf(r, s)) == AllJumpsIn(One(App(m, v)));
  }
}
