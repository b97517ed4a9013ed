/**
 When the result of a map or parallel operation depends on the order in which children finish.
 The loop ends with one result in every order exactly when a condition on its configuration
 and its children's outcomes holds; otherwise two runs with different results are built.
 */
module BatchOutcomes {
  import opened Wrappers
  import opened Operations
  import opened Batches
  import opened BatchRuns

  /** Every child has completed with its outcome. */
  function AllOf(outcomes: seq<Outcome>): (p: Progress)
    ensures |p| == |outcomes|
    ensures forall i :: 0 <= i < |p| ==> p[i] == Some(outcomes[i])
  {
    seq(|outcomes|, i requires 0 <= i < |outcomes| => Some(outcomes[i]))
  }

  /** Every child but `x` has. */
  function AllBut(outcomes: seq<Outcome>, x: nat): Progress
    requires x < |outcomes|
  {
    AllOf(outcomes)[x := None]
  }

  // ----- Counting -----

  lemma {:induction false} FewerCompleted(p: Progress, q: Progress)
    requires |p| == |q| && forall i :: 0 <= i < |p| ==> p[i].None? || p[i] == q[i]
    ensures SuccessCount(p) <= SuccessCount(q) && FailureCount(p) <= FailureCount(q)
  {
    if p != [] {
      FewerCompleted(p[..|p| - 1], q[..|p| - 1]);
    }
  }

  lemma {:induction false} FewerStarted(q: Progress, k: nat)
    requires k <= |q|
    ensures SuccessCount(q[..k]) <= SuccessCount(q) && FailureCount(q[..k]) <= FailureCount(q)
  {
    if k == |q| {
      assert q[..k] == q;
    } else {
      assert q[..|q| - 1][..k] == q[..k];
      FewerStarted(q[..|q| - 1], k);
    }
  }

  /** No more children succeed, or fail, in a state than in one that contains it. */
  lemma CountsWithin(p: Progress, q: Progress)
    requires |p| <= |q| && forall i :: 0 <= i < |p| ==> p[i].None? || p[i] == q[i]
    ensures SuccessCount(p) <= SuccessCount(q) && FailureCount(p) <= FailureCount(q)
  {
    FewerCompleted(p, q[..|p|]);
    FewerStarted(q, |p|);
  }

  lemma {:induction false} CompletedExactly(p: Progress, x: nat)
    requires forall i :: 0 <= i < |p| && i != x ==> p[i].Some?
    ensures CompletedCount(p) == |p| - (if x < |p| && p[x].None? then 1 else 0)
  {
    if p != [] {
      CompletedExactly(p[..|p| - 1], x);
    }
  }

  lemma {:induction false} OpenIsCounted(p: Progress, i: nat)
    requires i < |p|
    ensures p[i].None? ==> CompletedCount(p) < |p|
  {
    if i < |p| - 1 {
      OpenIsCounted(p[..|p| - 1], i);
    }
  }

  lemma {:induction false} FullIsAll(p: Progress, outcomes: seq<Outcome>)
    requires GivesOutcomes(p, outcomes) && CompletedCount(p) == |p| == |outcomes|
    ensures p == AllOf(outcomes)
  {
    forall i | 0 <= i < |p|
      ensures p[i].Some?
    {
      OpenIsCounted(p, i);
    }
  }

  /** Leaving one child out lowers the count it belongs to, and no other. */
  lemma AllButCounts(outcomes: seq<Outcome>, x: nat)
    requires x < |outcomes|
    ensures SuccessCount(AllBut(outcomes, x)) == SuccessCount(AllOf(outcomes)) - (if outcomes[x].Ok? then 1 else 0)
    ensures FailureCount(AllBut(outcomes, x)) == FailureCount(AllOf(outcomes)) - (if outcomes[x].Err? then 1 else 0)
    ensures CompletedCount(AllOf(outcomes)) == |outcomes|
  {
    CountsAfterCompletion(AllBut(outcomes, x), x, outcomes[x]);
    assert AllBut(outcomes, x)[x := Some(outcomes[x])] == AllOf(outcomes);
    CompletedExactly(AllOf(outcomes), |outcomes|);
  }

  lemma {:induction false} FindChild(p: Progress, ok: bool) returns (i: nat)
    requires if ok then SuccessCount(p) > 0 else FailureCount(p) > 0
    ensures i < |p| && p[i].Some? && p[i].value.Ok? == ok
  {
    var n := |p| - 1;
    if p[n].Some? && p[n].value.Ok? == ok {
      i := n;
    } else {
      i := FindChild(p[..n], ok);
    }
  }

  // ----- Ending a run -----

  /** While the loop may go on, a child is in flight after filling. */
  lemma SomethingInFlight(z: Setup, joins: seq<nat>, p: Progress) returns (i: nat)
    requires z.Valid() && z.cfg.minSuccessful != Some(0) && z.Total() > 0
    requires After(z, joins) == Some(p) && !Stopped(z, p)
    ensures CanJoin(z, p, i)
  {
    StatesAreOk(z, joins);
    FillCounts(z, p);
    FillIsFull(z, p);
    var f := Fill(z, p);
    MayGoOn(z, p);
    if forall k :: 0 <= k < |f| ==> f[k].Some? {
      CompletedExactly(f, |f|);
      assert false;
    }
    i :| i < |f| && f[i].None?;
  }

  /** Any run that goes on can be ended, and what has completed stays. */
  lemma {:induction false} EndRun(z: Setup, joins: seq<nat>, p: Progress, x: nat) returns (all: seq<nat>, q: Progress)
    requires z.Valid() && z.cfg.minSuccessful != Some(0) && z.Total() > 0
    requires After(z, joins) == Some(p) && x < |p| && p[x].Some?
    ensures Ends(z, all, q) && x < |q| && q[x] == p[x]
    decreases z.Total() - |joins|
  {
    if Stopped(z, p) {
      return joins, p;
    }
    var i := SomethingInFlight(z, joins, p);
    FillAt(z, p, x);
    StatesAreOk(z, joins);
    JoinKeepsState(z, |joins|, p, i);
    AfterOneMore(z, joins, p, i);
    all, q := EndRun(z, joins + [i], Join(z, p, i), x);
  }

  lemma OnlyOneOpen(z: Setup, joins: nat, p: Progress, x: nat)
    requires z.Valid() && z.cfg.minSuccessful != Some(0) && z.limit > 1 && x < z.Total()
    requires StateOk(z, joins, p) && !Stopped(z, p) && (x < |p| ==> p[x].None?)
    requires forall i :: 0 <= i < |Fill(z, p)| && i != x ==> Fill(z, p)[i].Some?
    ensures CanJoin(z, p, x) && Fill(z, p) == AllBut(z.outcomes, x)
  {
    var f := Fill(z, p);
    MayGoOn(z, p);
    FillIsFull(z, p);
    FillCounts(z, p);
    CompletedExactly(f, x);
    forall i | 0 <= i < |f|
      ensures f[i] == if i < |p| then p[i] else None
    {
      FillAt(z, p, i);
    }
  }

  /** Child `x` is kept in flight until the batch stops without it, or all others have completed. */
  lemma {:induction false} Hold(z: Setup, joins: seq<nat>, p: Progress, x: nat) returns (more: seq<nat>, q: Progress)
    requires z.Valid() && z.cfg.minSuccessful != Some(0) && z.limit > 1 && x < z.Total()
    requires After(z, joins) == Some(p) && (x < |p| ==> p[x].None?)
    ensures After(z, more) == Some(q) && (x < |q| ==> q[x].None?)
    ensures Stopped(z, q) || (CanJoin(z, q, x) && Fill(z, q) == AllBut(z.outcomes, x))
    decreases z.Total() - |joins|
  {
    StatesAreOk(z, joins);
    var f := Fill(z, p);
    if Stopped(z, p) {
      more, q := joins, p;
    } else if i: nat :| i < |f| && i != x && f[i].None? {
      assert CanJoin(z, p, i);
      if x < |f| {
        FillAt(z, p, x);
      }
      JoinKeepsState(z, |joins|, p, i);
      AfterOneMore(z, joins, p, i);
      more, q := Hold(z, joins + [i], Join(z, p, i), x);
    } else {
      OnlyOneOpen(z, |joins|, p, x);
      more, q := joins, p;
    }
  }

  /** The other children alone make the batch stop. */
  predicate StopsWithout(z: Setup, x: nat)
    requires x < z.Total()
  {
    !MayStart(z, AllBut(z.outcomes, x))
  }

  /** Then there is a run that ends without child `x`. */
  lemma EndWithout(z: Setup, x: nat) returns (joins: seq<nat>, p: Progress)
    requires z.Valid() && z.cfg.minSuccessful != Some(0) && z.limit > 1 && x < z.Total() && z.Total() > 1
    requires StopsWithout(z, x)
    ensures Ends(z, joins, p) && (x < |p| ==> p[x].None?)
  {
    joins, p := Hold(z, [], [], x);
    if !Stopped(z, p) {
      FillCounts(z, p);
      MayGoOn(z, p);
    }
  }

  lemma NotStoppedWithout(z: Setup, joins: nat, p: Progress, x: nat)
    requires z.Valid() && x < z.Total() && !StopsWithout(z, x)
    requires StateOk(z, joins, p) && (x < |p| ==> p[x].None?)
    ensures !Stopped(z, p)
  {
    var others := AllBut(z.outcomes, x);
    CountsWithin(p, others);
    CompletedExactly(others, x);
    ToleranceIsExact(FailureCount(p), z.Total(), z.cfg);
    ToleranceIsExact(FailureCount(others), z.Total(), z.cfg);
  }

  /** Otherwise there is a run that ends with every child completed. */
  lemma EndWithAll(z: Setup, x: nat) returns (joins: seq<nat>)
    requires z.Valid() && z.cfg.minSuccessful != Some(0) && z.limit > 1 && x < z.Total()
    requires !StopsWithout(z, x)
    ensures Ends(z, joins, AllOf(z.outcomes))
  {
    var held, p := Hold(z, [], [], x);
    StatesAreOk(z, held);
    NotStoppedWithout(z, |held|, p, x);
    AfterOneMore(z, held, p, x);
    assert Join(z, p, x) == AllOf(z.outcomes);
    AllButCounts(z.outcomes, x);
    joins := held + [x];
  }

  // ----- The condition -----

  /** The children's outcomes give the batch no reason to stop before all have completed. */
  predicate CannotStopEarly(z: Setup)
    requires z.Valid()
  {
    var s, f := SuccessCount(AllOf(z.outcomes)), FailureCount(AllOf(z.outcomes));
    && f <= Tolerance(z.Total(), z.cfg)
    && (z.cfg.minSuccessful.Some? ==> s < z.cfg.minSuccessful.value || (s == z.cfg.minSuccessful.value && f == 0))
  }

  /** Every child fails, and only the last failure is one too many. */
  predicate LastFailureStops(z: Setup)
    requires z.Valid()
  {
    SuccessCount(AllOf(z.outcomes)) == 0 && FailureCount(AllOf(z.outcomes)) == Tolerance(z.Total(), z.cfg) + 1
  }

  predicate OneAtATime(z: Setup) {
    z.limit == 1 || z.Total() <= 1
  }

  predicate NothingToDecide(z: Setup)
    requires z.Valid()
  {
    OneAtATime(z) || z.cfg.minSuccessful == Some(0) || CannotStopEarly(z) || LastFailureStops(z)
  }

  ghost predicate OrderIndependent(z: Setup) {
    forall a, p, b, q :: Ends(z, a, p) && Ends(z, b, q) ==>
      BatchOf(p, z.Total(), z.cfg) == BatchOf(q, z.Total(), z.cfg)
  }

  // ----- The condition suffices -----

  lemma ForcedJoin(z: Setup, n: nat, i: nat)
    requires OneAtATime(z) && n < z.Total()
    requires var p := AllOf(z.outcomes[..n]); StateOk(z, n, p) && CanJoin(z, p, i)
    ensures i == n && Join(z, AllOf(z.outcomes[..n]), i) == AllOf(z.outcomes[..n + 1])
  {
    var p := AllOf(z.outcomes[..n]);
    var f := Fill(z, p);
    FillIsFull(z, p);
    FillCounts(z, p);
    FillAt(z, p, i);
    assert f[..n] == p by {
      forall k | 0 <= k < n
        ensures f[k] == p[k]
      {
        FillAt(z, p, k);
      }
    }
  }

  /** One child at a time: the children are joined in the order of their indices. */
  lemma {:induction false} ForcedOrder(z: Setup, joins: seq<nat>)
    requires OneAtATime(z) && After(z, joins).Some?
    ensures |joins| <= z.Total() && After(z, joins) == Some(AllOf(z.outcomes[..|joins|]))
  {
    StatesAreOk(z, joins);
    if joins != [] {
      var n := |joins| - 1;
      ForcedOrder(z, joins[..n]);
      StatesAreOk(z, joins[..n]);
      ForcedJoin(z, n, joins[n]);
    }
  }

  /** Of two runs one child at a time, neither ends before the other. */
  lemma ForcedEnd(z: Setup, a: seq<nat>, p: Progress, b: seq<nat>, q: Progress)
    requires OneAtATime(z) && Ends(z, a, p) && Ends(z, b, q) && |a| <= |b|
    ensures p == q
  {
    ForcedOrder(z, a);
    ForcedOrder(z, b);
    if |a| < |b| {
      GoesOn(z, b, |a|);
      ForcedOrder(z, b[..|a|]);
      assert false;
    }
  }

  /** Where the batch cannot stop early, or only its last failure stops it, every run ends with all children. */
  lemma EndsWithAll(z: Setup, joins: seq<nat>, p: Progress)
    requires z.Valid() && z.cfg.minSuccessful != Some(0) && z.Total() > 0
    requires CannotStopEarly(z) || LastFailureStops(z)
    requires Ends(z, joins, p)
    ensures p == AllOf(z.outcomes)
  {
    StatesAreOk(z, joins);
    if !Stopped(z, p) {
      var i := SomethingInFlight(z, joins, p);
      assert false;
    }
    CountsWithin(p, AllOf(z.outcomes));
    AllButCounts(z.outcomes, 0);
    ToleranceIsExact(FailureCount(p), z.Total(), z.cfg);
    FullIsAll(p, z.outcomes);
  }

  /** With nothing to start there is one run, which does nothing. */
  lemma NothingStarts(z: Setup, joins: seq<nat>)
    requires z.cfg.minSuccessful == Some(0) && After(z, joins).Some?
    ensures joins == []
  {
    if joins != [] {
      GoesOn(z, joins, 0);
    }
  }

  lemma ConditionSuffices(z: Setup, a: seq<nat>, p: Progress, b: seq<nat>, q: Progress)
    requires z.Valid() && NothingToDecide(z) && Ends(z, a, p) && Ends(z, b, q)
    ensures p == q
  {
    if OneAtATime(z) {
      if |a| <= |b| {
        ForcedEnd(z, a, p, b, q);
      } else {
        ForcedEnd(z, b, q, a, p);
      }
    } else if z.cfg.minSuccessful == Some(0) {
      NothingStarts(z, a);
      NothingStarts(z, b);
    } else {
      EndsWithAll(z, a, p);
      EndsWithAll(z, b, q);
    }
  }

  // ----- The condition is necessary -----

  /** Child `x` is joined first. */
  lemma EndAfter(z: Setup, x: nat) returns (joins: seq<nat>, p: Progress)
    requires z.Valid() && z.cfg.minSuccessful != Some(0) && !OneAtATime(z) && x < 2
    ensures Ends(z, joins, p) && x < |p| && p[x].Some?
  {
    FillIsFull(z, []);
    FillCounts(z, []);
    MayGoOn(z, []);
    FillAt(z, [], x);
    AfterOneMore(z, [], [], x);
    joins, p := EndRun(z, [x], Join(z, [], x), x);
  }

  /** A child that the batch can end without, when it could not end without either of the first two. */
  lemma FindDispensable(z: Setup) returns (j: nat)
    requires z.Valid() && !NothingToDecide(z) && !StopsWithout(z, 0) && !StopsWithout(z, 1)
    ensures j < z.Total() && StopsWithout(z, j)
  {
    var all := AllOf(z.outcomes);
    var tolerance := Tolerance(z.Total(), z.cfg);
    AllButCounts(z.outcomes, 0);
    AllButCounts(z.outcomes, 1);
    ToleranceIsExact(FailureCount(AllBut(z.outcomes, 0)), z.Total(), z.cfg);
    ToleranceIsExact(FailureCount(AllBut(z.outcomes, 1)), z.Total(), z.cfg);
    j := FindChild(all, FailureCount(all) > tolerance);
    AllButCounts(z.outcomes, j);
    ToleranceIsExact(FailureCount(AllBut(z.outcomes, j)), z.Total(), z.cfg);
  }

  lemma TwoRuns(z: Setup) returns (a: seq<nat>, p: Progress, b: seq<nat>, q: Progress)
    requires z.Valid() && !NothingToDecide(z)
    ensures Ends(z, a, p) && Ends(z, b, q) && p != q
  {
    if StopsWithout(z, 0) {
      a, p := EndWithout(z, 0);
      b, q := EndAfter(z, 0);
    } else if StopsWithout(z, 1) {
      a, p := EndWithout(z, 1);
      b, q := EndAfter(z, 1);
    } else {
      var j := FindDispensable(z);
      a, p := EndWithout(z, j);
      b := EndWithAll(z, 0);
      q := AllOf(z.outcomes);
    }
  }

  /**
   The result of a batch is independent of the order in which its children finish exactly when
   they run one at a time, nothing can be started, their outcomes give no reason to stop early,
   or all fail and only the last failure is one too many.
   */
  lemma OrderIndependentExactly(z: Setup)
    requires z.Valid()
    ensures OrderIndependent(z) <==> NothingToDecide(z)
  {
    if NothingToDecide(z) {
      forall a, p, b, q | Ends(z, a, p) && Ends(z, b, q)
        ensures BatchOf(p, z.Total(), z.cfg) == BatchOf(q, z.Total(), z.cfg)
      {
        ConditionSuffices(z, a, p, b, q);
      }
    } else {
      var a, p, b, q := TwoRuns(z);
      if BatchOf(p, z.Total(), z.cfg) == BatchOf(q, z.Total(), z.cfg) {
        ItemsDetermineProgress(p, q);
      }
    }
  }
}
