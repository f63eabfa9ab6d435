/** Every continuation met in a run is the static continuation of some position of the program, so
    the list that follows a statement in a run is always the list that follows it in the text. */
module Static {
  import opened Wrappers
  import opened Clift

  /** `Again` is not part of the language. */
  predicate Plain(b: Block) {
    match b
    case Nil => true
    case Cons(a, r) => !a.Again? && (a.Nest? ==> PlainIn(a.rs)) && Plain(r)
  }

  predicate PlainIn(rs: Regions) {
    match rs
    case One(b) => Plain(b)
    case More(b, r) => Plain(b) && PlainIn(r)
  }

  /** `s` is the flat continuation at a statement of `b`, when `k` follows `b`. */
  ghost predicate IsCont(s: Block, b: Block, k: Block) {
    match b
    case Nil => false
    case Cons(a, r) =>
      || s == App(b, k)
      || IsCont(s, r, k)
      || (a.Nest? && IsContIn(s, a.rs, Inner(a, App(r, k))))
      || (a.Nest? && a.tag.DoWhile? && s == Inner(a, App(r, k)))
  }

  ghost predicate IsContIn(s: Block, rs: Regions, k: Block) {
    match rs
    case One(b) => IsCont(s, b, k)
    case More(b, r) => IsCont(s, b, k) || IsContIn(s, r, k)
  }

  lemma StartAt(b: Block, k: Block)
    ensures b == Nil || IsCont(App(b, k), b, k)
  {}

  lemma {:induction false} TailAt(a: Stmt, s: Block, b: Block, k: Block)
    requires IsCont(Cons(a, s), b, k)
    ensures s == k || IsCont(s, b, k)
  {
    var Cons(c, r) := b;
    StartAt(r, k);
    if Cons(a, s) == App(b, k) {
      assert s == App(r, k);
    } else if IsCont(Cons(a, s), r, k) {
      TailAt(a, s, r, k);
    } else if c.Nest? && IsContIn(Cons(a, s), c.rs, Inner(c, App(r, k))) {
      TailAtIn(a, s, c.rs, Inner(c, App(r, k)));
    }
  }

  lemma {:induction false} TailAtIn(a: Stmt, s: Block, rs: Regions, k: Block)
    requires IsContIn(Cons(a, s), rs, k)
    ensures s == k || IsContIn(s, rs, k)
  {
    if IsCont(Cons(a, s), rs.b, k) { TailAt(a, s, rs.b, k); } else { TailAtIn(a, s, rs.rest, k); }
  }

  lemma {:induction false} NthAt(rs: Regions, i: nat, k: Block)
    requires i < Count(rs)
    ensures Nth(rs, i) == Nil || IsContIn(App(Nth(rs, i), k), rs, k)
  {
    if i == 0 { StartAt(rs.b, k); } else { NthAt(rs.rest, i - 1, k); }
  }

  /** Entering region `i` of a statement. */
  lemma {:induction false} EnterAt(a: Stmt, s: Block, i: nat, b: Block, k: Block)
    requires IsCont(Cons(a, s), b, k) && Plain(b)
    requires a.Nest? && i < Count(a.rs)
    ensures Nth(a.rs, i) == Nil || IsCont(App(Nth(a.rs, i), Inner(a, s)), b, k)
    ensures a.tag.DoWhile? ==> IsCont(Inner(a, s), b, k)
  {
    var Cons(c, r) := b;
    if Cons(a, s) == App(b, k) {
      NthAt(a.rs, i, Inner(a, s));
    } else if IsCont(Cons(a, s), r, k) {
      EnterAt(a, s, i, r, k);
    } else {
      EnterAtIn(a, s, i, c.rs, Inner(c, App(r, k)));
    }
  }

  lemma {:induction false} EnterAtIn(a: Stmt, s: Block, i: nat, rs: Regions, k: Block)
    requires IsContIn(Cons(a, s), rs, k) && PlainIn(rs)
    requires a.Nest? && i < Count(a.rs)
    ensures Nth(a.rs, i) == Nil || IsContIn(App(Nth(a.rs, i), Inner(a, s)), rs, k)
    ensures a.tag.DoWhile? ==> IsContIn(Inner(a, s), rs, k)
  {
    if IsCont(Cons(a, s), rs.b, k) { EnterAt(a, s, i, rs.b, k); } else { EnterAtIn(a, s, i, rs.rest, k); }
  }

  /** From the condition of a do-while back to the loop. */
  lemma {:induction false} AgainAt(d: Stmt, s: Block, b: Block, k: Block)
    requires IsCont(Cons(Again(d), s), b, k) && Plain(b)
    ensures d.Nest? && d.tag.DoWhile? && IsCont(Cons(d, s), b, k)
  {
    var Cons(c, r) := b;
    if IsCont(Cons(Again(d), s), r, k) {
      AgainAt(d, s, r, k);
    } else if c.Nest? && IsContIn(Cons(Again(d), s), c.rs, Inner(c, App(r, k))) {
      AgainAtIn(d, s, c.rs, Inner(c, App(r, k)));
    }
  }

  lemma {:induction false} AgainAtIn(d: Stmt, s: Block, rs: Regions, k: Block)
    requires IsContIn(Cons(Again(d), s), rs, k) && PlainIn(rs)
    ensures d.Nest? && d.tag.DoWhile? && IsContIn(Cons(d, s), rs, k)
  {
    if IsCont(Cons(Again(d), s), rs.b, k) { AgainAt(d, s, rs.b, k); } else { AgainAtIn(d, s, rs.rest, k); }
  }

  lemma {:induction false} FindAt(l: nat, b: Block, k: Block)
    requires Find(l, b, k).Some?
    ensures Find(l, b, k).value == k || IsCont(Find(l, b, k).value, b, k)
  {
    var Cons(a, r) := b;
    StartAt(r, k);
    if a == Label(l) {
    } else if a.Nest? {
      var k1 := Inner(a, App(r, k));
      if BreakLabel(a.tag) == Some(l) || ContinueLabel(a.tag) == Some(l) {
      } else if FindIn(l, a.rs, k1).Some? {
        FindInAt(l, a.rs, k1);
      } else {
        FindAt(l, r, k);
      }
    } else {
      FindAt(l, r, k);
    }
  }

  lemma {:induction false} FindInAt(l: nat, rs: Regions, k: Block)
    requires FindIn(l, rs, k).Some?
    ensures FindIn(l, rs, k).value == k || IsContIn(FindIn(l, rs, k).value, rs, k)
  {
    if Find(l, rs.b, k).Some? { FindAt(l, rs.b, k); } else { FindInAt(l, rs.rest, k); }
  }

  ghost predicate At(s: Block, p: Block) {
    s == Nil || IsCont(s, p, Nil)
  }

  ghost predicate AtAll(c: Config, p: Block) {
    match c
    case Run(s) => At(s, p)
    case Eval(_, t, f) => AtAll(t, p) && AtAll(f, p)
  }

  lemma PickAt(a: Stmt, s: Block, i: nat, p: Block)
    requires IsCont(Cons(a, s), p, Nil) && Plain(p) && a.Nest?
    ensures At(App(Pick(a.rs, i), Inner(a, s)), p)
  {
    var j := if i < Count(a.rs) then i else 0;
    EnterAt(a, s, j, p, Nil);
    TailAt(a, s, p, Nil);
  }

  lemma QuietAt(p: Block, c: Config)
    requires AtAll(c, p) && Plain(p)
    ensures Quiet(p, c).Some? ==> AtAll(Quiet(p, c).value, p)
  {
    if c.Run? && c.b.Cons? {
      var Cons(a, s) := c.b;
      TailAt(a, s, p, Nil);
      match a
      case Jump(_, _, l) => if Find(l, p, Nil).Some? { FindAt(l, p, Nil); }
      case Nest(_, _) => PickAt(a, s, 0, p); PickAt(a, s, 1, p);
      case Again(d) => AgainAt(d, s, p, Nil);
      case _ =>
    }
  }

  lemma StepAt(p: Block, o: Oracle, s: State)
    requires AtAll(s.c, p) && Plain(p)
    ensures AtAll(Step(p, o, s).c, p)
  {
    QuietAt(p, s.c);
    if s.c.Run? && s.c.b.Cons? {
      var Cons(a, r) := s.c.b;
      TailAt(a, r, p, Nil);
      if a.Nest? && a.tag.Branch? && a.tag.test.Switch? { PickAt(a, r, o(s.tr, a.tag.test.x), p); }
    }
  }

  /** The invariant of every run. */
  lemma {:induction false} ExecAt(p: Block, o: Oracle, n: nat)
    requires Plain(p)
    ensures AtAll(Exec(p, o, n).c, p)
  {
    if n == 0 {
      StartAt(p, Nil);
      AppNil(p);
    } else {
      ExecAt(p, o, n - 1);
      StepAt(p, o, Exec(p, o, n - 1));
    }
  }
}
