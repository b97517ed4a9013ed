/**
 The scheduling loop as a relation: from the children joined so far, in their order, to the
 state of the batch.  Which child in flight is joined next is the only choice.
 */
module BatchRuns {
  import opened Wrappers
  import opened Operations
  import opened Batches

  /** What the children return, when the batch may stop, and how many may be in flight. */
  datatype Setup = Setup(outcomes: seq<Outcome>, cfg: CompletionConfig, limit: nat) {

    function Total(): nat {
      |outcomes|
    }

    predicate Valid() {
      ValidConfig(cfg, Total()) && limit > 0
    }
  }

  /** Without a limit all children may be in flight; a limit of zero counts as one. */
  function EffectiveConcurrency(maxConcurrency: Option<nat>, total: nat): nat {
    Max(maxConcurrency.GetOr(Max(total, 1)), 1)
  }

  function SetupFor(outcomes: seq<Outcome>, cfg: CompletionConfig, maxConcurrency: Option<nat>): Setup {
    Setup(outcomes, cfg, EffectiveConcurrency(maxConcurrency, |outcomes|))
  }

  predicate MayStart(z: Setup, p: Progress) {
    ShouldContinue(FailureCount(p), z.Total(), z.cfg) && !MinReached(SuccessCount(p), z.cfg)
  }

  function OpenCount(p: Progress): nat {
    |p| - CompletedCount(p)
  }

  /** Starts children while there is room, work, and no reason to stop. */
  function Fill(z: Setup, p: Progress): (r: Progress)
    ensures |p| <= |r| <= Max(|p|, z.Total())
    decreases z.Total() - |p|
  {
    if |p| < z.Total() && OpenCount(p) < z.limit && MayStart(z, p) then Fill(z, p + [None]) else p
  }

  /** The test made after a join. */
  predicate Stopped(z: Setup, p: Progress) {
    p != [] && Stops(SuccessCount(p), FailureCount(p), z.Total(), z.cfg)
  }

  predicate CanJoin(z: Setup, p: Progress, i: nat) {
    !Stopped(z, p) && i < |Fill(z, p)| && i < z.Total() && Fill(z, p)[i].None?
  }

  function Join(z: Setup, p: Progress, i: nat): Progress
    requires CanJoin(z, p, i)
  {
    Fill(z, p)[i := Some(z.outcomes[i])]
  }

  /** The state after these joins, if the loop can make them. */
  function After(z: Setup, joins: seq<nat>): Option<Progress> {
    if joins == [] then Some([])
    else
      match After(z, joins[..|joins| - 1])
      case None => None
      case Some(p) => if CanJoin(z, p, joins[|joins| - 1]) then Some(Join(z, p, joins[|joins| - 1])) else None
  }

  /** The loop ends after these joins: the batch is complete, or nothing could be started. */
  predicate Ends(z: Setup, joins: seq<nat>, p: Progress) {
    After(z, joins) == Some(p) && (Stopped(z, p) || (joins == [] && Fill(z, []) == []))
  }

  lemma AfterOneMore(z: Setup, joins: seq<nat>, p: Progress, i: nat)
    requires After(z, joins) == Some(p) && CanJoin(z, p, i)
    ensures After(z, joins + [i]) == Some(Join(z, p, i))
  {
    assert (joins + [i])[..|joins|] == joins;
  }

  // ----- Starting children -----

  lemma {:induction false} FillCounts(z: Setup, p: Progress)
    ensures SuccessCount(Fill(z, p)) == SuccessCount(p) && FailureCount(Fill(z, p)) == FailureCount(p)
    decreases z.Total() - |p|
  {
    if Fill(z, p) != p {
      CountsAfterStart(p);
      FillCounts(z, p + [None]);
    }
  }

  lemma {:induction false} FillAt(z: Setup, p: Progress, i: nat)
    requires i < |Fill(z, p)|
    ensures Fill(z, p)[i] == if i < |p| then p[i] else None
    decreases z.Total() - |p|
  {
    if Fill(z, p) != p {
      FillAt(z, p + [None], i);
    }
  }

  /** Filling stops for want of work or room, or because the batch may not go on. */
  lemma {:induction false} FillIsFull(z: Setup, p: Progress)
    requires |p| <= z.Total() && OpenCount(p) <= z.limit
    ensures OpenCount(Fill(z, p)) <= z.limit
    ensures MayStart(z, p) ==> |Fill(z, p)| == z.Total() || OpenCount(Fill(z, p)) == z.limit
    decreases z.Total() - |p|
  {
    CountsAfterStart(p);
    if Fill(z, p) != p {
      FillIsFull(z, p + [None]);
    }
  }

  /** Where nothing stops the loop, filling does not change what it could start next. */
  lemma FillOneMore(z: Setup, p: Progress)
    requires |p| < z.Total() && OpenCount(p) < z.limit && MayStart(z, p)
    ensures Fill(z, p) == Fill(z, p + [None])
  {
  }

  // ----- States -----

  /** What holds of every state: each join completed one child, with its outcome. */
  predicate StateOk(z: Setup, joins: nat, p: Progress) {
    && |p| <= z.Total() && GivesOutcomes(p, z.outcomes)
    && CompletedCount(p) == joins && OpenCount(p) <= z.limit
    && (p == [] <==> joins == 0)
  }

  lemma JoinKeepsState(z: Setup, joins: nat, p: Progress, i: nat)
    requires StateOk(z, joins, p) && CanJoin(z, p, i)
    ensures StateOk(z, joins + 1, Join(z, p, i))
    ensures joins < z.Total()
  {
    var f := Fill(z, p);
    FillCounts(z, p);
    FillIsFull(z, p);
    forall k | 0 <= k < |f|
      ensures f[k] == if k < |p| then p[k] else None
    {
      FillAt(z, p, k);
    }
    CountsAfterCompletion(f, i, z.outcomes[i]);
  }

  lemma {:induction false} StatesAreOk(z: Setup, joins: seq<nat>)
    requires After(z, joins).Some?
    ensures StateOk(z, |joins|, After(z, joins).value) && |joins| <= z.Total()
  {
    if joins != [] {
      var front := joins[..|joins| - 1];
      StatesAreOk(z, front);
      JoinKeepsState(z, |front|, After(z, front).value, joins[|joins| - 1]);
    }
  }

  /** A run that goes on was not stopped before. */
  lemma {:induction false} GoesOn(z: Setup, joins: seq<nat>, k: nat)
    requires k < |joins| && After(z, joins).Some?
    ensures After(z, joins[..k]).Some? && CanJoin(z, After(z, joins[..k]).value, joins[k])
  {
    var front := joins[..|joins| - 1];
    if k < |front| {
      assert front[..k] == joins[..k];
      GoesOn(z, front, k);
    }
  }

  // ----- How runs end -----

  /** As many children as allowed were in flight when the last one was joined. */
  predicate RanFull(p: Progress, total: nat, limit: nat) {
    |p| == Min(total, CompletedCount(p) - 1 + limit)
  }

  lemma MayGoOn(z: Setup, p: Progress)
    requires z.Valid() && z.cfg.minSuccessful != Some(0) && !Stopped(z, p)
    ensures MayStart(z, p)
  {
  }

  /** The loop starts nothing exactly if there are no children or no success is asked for. */
  lemma FirstFill(z: Setup)
    requires z.Valid()
    ensures Fill(z, []) == [] <==> z.Total() == 0 || z.cfg.minSuccessful == Some(0)
  {
    FillIsFull(z, []);
    FillCounts(z, []);
  }

  lemma FirstJoinStarts(z: Setup, joins: seq<nat>)
    requires z.Valid() && joins != [] && After(z, joins).Some?
    ensures z.Total() > 0 && z.cfg.minSuccessful != Some(0)
  {
    GoesOn(z, joins, 0);
    assert joins[..0] == [];
    FirstFill(z);
  }

  lemma JoinRanFull(z: Setup, q: Progress, i: nat)
    requires |q| <= z.Total() && OpenCount(Fill(z, q)) <= z.limit && CanJoin(z, q, i)
    requires |Fill(z, q)| == z.Total() || OpenCount(Fill(z, q)) == z.limit
    ensures RanFull(Join(z, q, i), z.Total(), z.limit)
  {
    CountsAfterCompletion(Fill(z, q), i, z.outcomes[i]);
  }

  lemma NotStoppedAtFirst(z: Setup, q: Progress)
    requires z.Valid() && z.cfg.minSuccessful != Some(0) && z.Total() > 0 && !Stopped(z, q)
    ensures !Stops(SuccessCount(q), FailureCount(q), z.Total(), z.cfg)
  {
  }

  lemma JoinStopsNow(z: Setup, q: Progress, i: nat)
    requires z.Valid() && z.cfg.minSuccessful != Some(0) && z.Total() > 0
    requires CanJoin(z, q, i) && Stopped(z, Join(z, q, i))
    ensures StopsNow(SuccessCount(Join(z, q, i)), FailureCount(Join(z, q, i)), z.Total(), z.cfg)
  {
    FillCounts(z, q);
    CountsAfterCompletion(Fill(z, q), i, z.outcomes[i]);
    NotStoppedAtFirst(z, q);
    var p := Join(z, q, i);
    StopsAtOnce(SuccessCount(q), FailureCount(q), SuccessCount(p), FailureCount(p), z.Total(), z.cfg);
  }

  /** A run that joins a child stops at once when it may, with as many children in flight as it might have. */
  lemma EndsPromptly(z: Setup, joins: seq<nat>, p: Progress)
    requires z.Valid() && joins != [] && Ends(z, joins, p)
    ensures StopsNow(SuccessCount(p), FailureCount(p), z.Total(), z.cfg)
    ensures RanFull(p, z.Total(), z.limit)
    ensures z.Total() > 0 && z.cfg.minSuccessful != Some(0)
  {
    var n := |joins| - 1;
    StatesAreOk(z, joins);
    StatesAreOk(z, joins[..n]);
    GoesOn(z, joins, n);
    var q := After(z, joins[..n]).value;
    FirstJoinStarts(z, joins);
    MayGoOn(z, q);
    FillIsFull(z, q);
    FillCounts(z, q);
    JoinStopsNow(z, q, joins[n]);
    JoinRanFull(z, q, joins[n]);
  }

  // ----- What the configured concurrency means -----

  /** In every state, before and after starting children, no more are in flight than configured. */
  lemma InFlightIsLimited(outcomes: seq<Outcome>, cfg: CompletionConfig, maxConcurrency: Option<nat>, joins: seq<nat>)
    requires After(SetupFor(outcomes, cfg, maxConcurrency), joins).Some?
    ensures var z := SetupFor(outcomes, cfg, maxConcurrency);
            var p := After(z, joins).value;
            maxConcurrency.Some? ==>
              OpenCount(p) <= Max(1, maxConcurrency.value) && OpenCount(Fill(z, p)) <= Max(1, maxConcurrency.value)
  {
    var z := SetupFor(outcomes, cfg, maxConcurrency);
    StatesAreOk(z, joins);
    FillIsFull(z, After(z, joins).value);
  }

  /** Where children may start, the loop first starts as many as configured: all of them without a limit. */
  lemma FirstFillStarts(outcomes: seq<Outcome>, cfg: CompletionConfig, maxConcurrency: Option<nat>)
    requires ValidConfig(cfg, |outcomes|) && cfg.minSuccessful != Some(0)
    ensures |Fill(SetupFor(outcomes, cfg, maxConcurrency), [])|
         == match maxConcurrency
            case None => |outcomes|
            case Some(m) => Min(|outcomes|, Max(1, m))
  {
    var z := SetupFor(outcomes, cfg, maxConcurrency);
    FillIsFull(z, []);
    FillCounts(z, []);
  }

  /** A run that joins a child has started as many as could be in flight at the last join. */
  lemma EndsHavingStarted(
      outcomes: seq<Outcome>, cfg: CompletionConfig, maxConcurrency: Option<nat>, joins: seq<nat>, p: Progress)
    requires ValidConfig(cfg, |outcomes|) && joins != []
    requires Ends(SetupFor(outcomes, cfg, maxConcurrency), joins, p)
    ensures CompletedCount(p) == |joins|
    ensures |p| == match maxConcurrency
                   case None => |outcomes|
                   case Some(m) => Min(|outcomes|, |joins| - 1 + Max(1, m))
  {
    var z := SetupFor(outcomes, cfg, maxConcurrency);
    StatesAreOk(z, joins);
    EndsPromptly(z, joins, p);
  }
}
