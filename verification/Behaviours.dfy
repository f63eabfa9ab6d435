/** Runs are deterministic, so it is enough to follow the first program with the second: if the
    second shows every trace, ends every ended run and hangs on every hanging run of the first, the
    two have the same behaviours. */
module Behaviours {
  import opened Clift

  lemma StepGrows(p: Block, o: Oracle, s: State)
    ensures s.tr <= Step(p, o, s).tr && |Step(p, o, s).tr| <= |s.tr| + 1
    ensures s.c == End ==> Step(p, o, s) == s
  {}

  lemma {:induction false} TraceGrows(p: Block, o: Oracle, m: nat, n: nat)
    requires m <= n
    ensures Exec(p, o, m).tr <= Exec(p, o, n).tr
    ensures Exec(p, o, m).c == End ==> Exec(p, o, n) == Exec(p, o, m)
    decreases n
  {
    if m < n {
      TraceGrows(p, o, m, n - 1);
      StepGrows(p, o, Exec(p, o, n - 1));
    }
  }

  /** A run passes through every prefix of its trace. */
  lemma {:induction false} PrefixShown(p: Block, o: Oracle, n: nat, tr: seq<Event>)
    requires tr <= Exec(p, o, n).tr
    ensures Shows(p, o, tr)
  {
    if tr != Exec(p, o, n).tr && n > 0 {
      StepGrows(p, o, Exec(p, o, n - 1));
      PrefixShown(p, o, n - 1, tr);
    }
  }

  ghost predicate Follows(p: Block, q: Block, o: Oracle) {
    && (forall n: nat :: Shows(q, o, Exec(p, o, n).tr))
    && (forall n: nat :: Exec(p, o, n).c == End ==> Ends(q, o, Exec(p, o, n).tr))
    && (forall n: nat :: Silent(p, o, n) ==> Hangs(q, o, Exec(p, o, n).tr))
  }

  /** Every run ends, hangs, or shows ever longer traces. */
  lemma {:induction false} LongRun(p: Block, o: Oracle, k: nat)
    requires forall n: nat :: Exec(p, o, n).c != End
    requires forall n: nat :: !Silent(p, o, n)
    ensures exists n: nat :: k <= |Exec(p, o, n).tr|
  {
    if k == 0 {
      assert 0 <= |Exec(p, o, 0).tr|;
    } else {
      LongRun(p, o, k - 1);
      var n: nat :| k - 1 <= |Exec(p, o, n).tr|;
      assert !Silent(p, o, n);
      var m: nat :| n <= m && Exec(p, o, m).tr != Exec(p, o, n).tr;
      TraceGrows(p, o, n, m);
    }
  }

  /** Two traces of one run are comparable. */
  lemma OneRun(p: Block, o: Oracle, m: nat, n: nat)
    ensures Exec(p, o, m).tr <= Exec(p, o, n).tr || Exec(p, o, n).tr <= Exec(p, o, m).tr
  {
    if m <= n { TraceGrows(p, o, m, n); } else { TraceGrows(p, o, n, m); }
  }

  lemma BackShows(p: Block, q: Block, o: Oracle, tr: seq<Event>)
    requires Follows(p, q, o) && Shows(q, o, tr)
    ensures Shows(p, o, tr)
  {
    var m: nat :| Exec(q, o, m).tr == tr;
    if n: nat :| Exec(p, o, n).c == End {
      var k: nat :| Exec(q, o, k) == State(End, Exec(p, o, n).tr);
      if m <= k { TraceGrows(q, o, m, k); } else { TraceGrows(q, o, k, m); }
      PrefixShown(p, o, n, tr);
    } else if n: nat :| Silent(p, o, n) {
      var k: nat :| Exec(q, o, k).tr == Exec(p, o, n).tr && Silent(q, o, k);
      if m <= k { TraceGrows(q, o, m, k); } else { assert Exec(q, o, m).tr == Exec(q, o, k).tr; }
      PrefixShown(p, o, n, tr);
    } else {
      LongRun(p, o, |tr|);
      var n: nat :| |tr| <= |Exec(p, o, n).tr|;
      assert Shows(q, o, Exec(p, o, n).tr);
      var k: nat :| Exec(q, o, k).tr == Exec(p, o, n).tr;
      OneRun(q, o, m, k);
      PrefixShown(p, o, n, tr);
    }
  }

  lemma Exclusive(p: Block, o: Oracle, m: nat, n: nat)
    requires Exec(p, o, m).c == End
    ensures !Silent(p, o, n)
    ensures Exec(p, o, n).tr <= Exec(p, o, m).tr
    ensures Exec(p, o, n).c == End ==> Exec(p, o, n) == Exec(p, o, m)
  {
    var k := if m <= n then n else m;
    TraceGrows(p, o, m, k);
    TraceGrows(p, o, n, k);
    assert Exec(p, o, k).c == End;
  }

  lemma BackEnds(p: Block, q: Block, o: Oracle, tr: seq<Event>)
    requires Follows(p, q, o) && Ends(q, o, tr)
    ensures Ends(p, o, tr)
  {
    var m: nat :| Exec(q, o, m) == State(End, tr);
    if n: nat :| Exec(p, o, n).c == End {
      var k: nat :| Exec(q, o, k) == State(End, Exec(p, o, n).tr);
      Exclusive(q, o, m, k);
      assert Exec(p, o, n) == State(End, tr);
    } else if n: nat :| Silent(p, o, n) {
      var k: nat :| Exec(q, o, k).tr == Exec(p, o, n).tr && Silent(q, o, k);
      Exclusive(q, o, m, k);
    } else {
      LongRun(p, o, |tr| + 1);
      var n: nat :| |tr| + 1 <= |Exec(p, o, n).tr|;
      assert Shows(q, o, Exec(p, o, n).tr);
      var k: nat :| Exec(q, o, k).tr == Exec(p, o, n).tr;
      Exclusive(q, o, m, k);
    }
  }

  lemma BackHangs(p: Block, q: Block, o: Oracle, tr: seq<Event>)
    requires Follows(p, q, o) && Hangs(q, o, tr)
    ensures Hangs(p, o, tr)
  {
    var m: nat :| Exec(q, o, m).tr == tr && Silent(q, o, m);
    if n: nat :| Exec(p, o, n).c == End {
      var k: nat :| Exec(q, o, k) == State(End, Exec(p, o, n).tr);
      Exclusive(q, o, k, m);
    } else if n: nat :| Silent(p, o, n) {
      var k: nat :| Exec(q, o, k).tr == Exec(p, o, n).tr && Silent(q, o, k);
      var j := if m <= k then k else m;
      assert Exec(q, o, j).tr == Exec(q, o, m).tr == Exec(q, o, k).tr;
    } else {
      LongRun(p, o, |tr| + 1);
      var n: nat :| |tr| + 1 <= |Exec(p, o, n).tr|;
      assert Shows(q, o, Exec(p, o, n).tr);
      var k: nat :| Exec(q, o, k).tr == Exec(p, o, n).tr;
      if k <= m { TraceGrows(q, o, k, m); }
    }
  }

  /** The one-sided argument is enough. */
  lemma Sound(p: Block, q: Block)
    requires forall o: Oracle :: Follows(p, q, o)
    ensures Equivalent(p, q)
  {
    forall o: Oracle, tr: seq<Event>
      ensures Shows(p, o, tr) <==> Shows(q, o, tr)
      ensures Ends(p, o, tr) <==> Ends(q, o, tr)
      ensures Hangs(p, o, tr) <==> Hangs(q, o, tr)
    {
      assert Follows(p, q, o);
      if Shows(q, o, tr) { BackShows(p, q, o, tr); }
      if Ends(q, o, tr) { BackEnds(p, q, o, tr); }
      if Hangs(q, o, tr) { BackHangs(p, q, o, tr); }
    }
  }

  lemma Transitive(p: Block, q: Block, r: Block)
    requires Equivalent(p, q) && Equivalent(q, r)
    ensures Equivalent(p, r)
  {}
}
