/**
 Results of map and parallel operations, when they complete and why, and the order of
 their items.
 */
module Batches {
  import opened Wrappers
  import opened Operations

  datatype ItemStatus = ItemSucceeded | ItemFailed | ItemStarted

  datatype CompletionReason = AllCompleted | MinSuccessfulReached | FailureToleranceExceeded

  datatype BatchItem = BatchItem(index: nat, status: ItemStatus, result: Option<Value>, error: Option<DurableError>)

  datatype BatchResult = BatchResult(all: seq<BatchItem>, reason: CompletionReason)

  // ----- When a batch is complete -----

  datatype CompletionConfig = CompletionConfig(
    minSuccessful: Option<nat>,
    toleratedFailures: Option<nat>,
    toleratedPercentage: Option<real>)

  predicate ValidConfig(cfg: CompletionConfig, total: nat) {
    && (cfg.minSuccessful.Some? ==> cfg.minSuccessful.value <= total)
    && (cfg.toleratedFailures.Some? ==> cfg.toleratedFailures.value <= total)
    && (cfg.toleratedPercentage.Some? ==> 0.0 <= cfg.toleratedPercentage.value <= 100.0)
  }

  predicate HasCriteria(cfg: CompletionConfig) {
    cfg.minSuccessful.Some? || cfg.toleratedFailures.Some? || cfg.toleratedPercentage.Some?
  }

  predicate ShouldContinue(failures: nat, total: nat, cfg: CompletionConfig) {
    if !HasCriteria(cfg) then failures == 0
    else
      && (cfg.toleratedFailures.Some? ==> failures <= cfg.toleratedFailures.value)
      && (cfg.toleratedPercentage.Some? && total > 0 ==>
            failures as real / total as real * 100.0 <= cfg.toleratedPercentage.value)
  }

  predicate MinReached(successes: nat, cfg: CompletionConfig) {
    cfg.minSuccessful.Some? && successes >= cfg.minSuccessful.value
  }

  function Reason(failures: nat, successes: nat, completed: nat, total: nat, cfg: CompletionConfig): CompletionReason {
    if !ShouldContinue(failures, total, cfg) then FailureToleranceExceeded
    else if completed == total then AllCompleted
    else if MinReached(successes, cfg) then MinSuccessfulReached
    else AllCompleted
  }

  /** The number of failures a batch survives. */
  function Tolerance(total: nat, cfg: CompletionConfig): int
    requires ValidConfig(cfg, total)
  {
    if !HasCriteria(cfg) then 0
    else
      var byCount := cfg.toleratedFailures.GetOr(total);
      if cfg.toleratedPercentage.None? then byCount
      else Min(byCount, (total as real * cfg.toleratedPercentage.value / 100.0).Floor)
  }

  lemma ShareIsAtMost(failures: nat, total: nat, percentage: real)
    requires total > 0
    ensures failures as real / total as real * 100.0 <= percentage
       <==> failures <= (total as real * percentage / 100.0).Floor
  {
    var f, t := failures as real, total as real;
    assert f / t * 100.0 <= percentage <==> f <= t * percentage / 100.0 by {
      assert f / t * t == f;
      if f / t * 100.0 <= percentage {
        assert f / t * 100.0 * t <= percentage * t;
      } else {
        assert f / t * 100.0 * t > percentage * t;
      }
      assert f / t * 100.0 * t == f * 100.0;
    }
  }

  lemma SharesCompared(failures: nat, total: nat, percentage: real)
    requires total > 0
    ensures failures as real / total as real * 100.0 <= percentage
       <==> 100.0 * failures as real <= percentage * total as real
  {
    var f, t := failures as real, total as real;
    assert f / t * t == f;
    if f / t * 100.0 <= percentage {
      assert f / t * 100.0 * t <= percentage * t;
    } else {
      assert f / t * 100.0 * t > percentage * t;
    }
    assert f / t * 100.0 * t == f * 100.0;
  }

  /** A batch goes on while its failures stay within one number, fixed in advance. */
  lemma ToleranceIsExact(failures: nat, total: nat, cfg: CompletionConfig)
    requires ValidConfig(cfg, total) && failures <= total
    ensures ShouldContinue(failures, total, cfg) <==> failures <= Tolerance(total, cfg)
  {
    if cfg.toleratedPercentage.Some? && total > 0 {
      ShareIsAtMost(failures, total, cfg.toleratedPercentage.value);
    }
  }

  /** Without any criterion the first failure ends the batch; a minimum of successes alone tolerates all failures. */
  lemma WithoutTolerance(failures: nat, total: nat, min: nat)
    ensures ShouldContinue(failures, total, CompletionConfig(None, None, None)) <==> failures == 0
    ensures ShouldContinue(failures, total, CompletionConfig(Some(min), None, None))
  {
  }

  /** A tolerated count allows as many failures, a tolerated percentage that share of all items; given both, both count. */
  lemma WithTolerance(failures: nat, total: nat, min: Option<nat>, count: nat, percentage: real)
    requires total > 0
    ensures ShouldContinue(failures, total, CompletionConfig(min, Some(count), None)) <==> failures <= count
    ensures ShouldContinue(failures, total, CompletionConfig(min, None, Some(percentage)))
       <==> 100.0 * failures as real <= percentage * total as real
    ensures ShouldContinue(failures, total, CompletionConfig(min, Some(count), Some(percentage)))
       <==> failures <= count && 100.0 * failures as real <= percentage * total as real
  {
    SharesCompared(failures, total, percentage);
  }

  /** A configuration is refused exactly if more successes are asked or failures tolerated than there are items, or the percentage is none. */
  lemma RefusedExactly(cfg: CompletionConfig, total: nat)
    ensures !ValidConfig(cfg, total)
       <==> (exists n: nat :: n > total && (cfg.minSuccessful == Some(n) || cfg.toleratedFailures == Some(n)))
            || (exists x: real :: (x < 0.0 || x > 100.0) && cfg.toleratedPercentage == Some(x))
  {
  }

  /** The test made after each completion. */
  predicate Stops(successes: nat, failures: nat, total: nat, cfg: CompletionConfig) {
    successes + failures == total || MinReached(successes, cfg) || !ShouldContinue(failures, total, cfg)
  }

  /** The test holds now and did not hold one completion earlier. */
  predicate StopsNow(successes: nat, failures: nat, total: nat, cfg: CompletionConfig) {
    && Stops(successes, failures, total, cfg)
    && (|| (successes > 0 && !Stops(successes - 1, failures, total, cfg))
        || (failures > 0 && !Stops(successes, failures - 1, total, cfg)))
  }

  lemma StopsAtOnce(s0: nat, f0: nat, s: nat, f: nat, total: nat, cfg: CompletionConfig)
    requires !Stops(s0, f0, total, cfg) && Stops(s, f, total, cfg)
    requires (s == s0 + 1 && f == f0) || (s == s0 && f == f0 + 1)
    ensures StopsNow(s, f, total, cfg)
  {
  }

  /**
   The reason of a batch that stops as soon as it may: tolerance is exceeded by one failure and
   no more; otherwise every item completed; otherwise exactly the required number succeeded.
   */
  lemma ReasonIsExact(successes: nat, failures: nat, total: nat, cfg: CompletionConfig)
    requires ValidConfig(cfg, total) && successes + failures <= total
    requires StopsNow(successes, failures, total, cfg)
    ensures failures <= Tolerance(total, cfg) + 1
    ensures match Reason(failures, successes, successes + failures, total, cfg)
            case FailureToleranceExceeded => failures == Tolerance(total, cfg) + 1
            case AllCompleted => failures <= Tolerance(total, cfg) && successes + failures == total
            case MinSuccessfulReached =>
              && failures <= Tolerance(total, cfg) && successes + failures < total
              && cfg.minSuccessful == Some(successes)
  {
    ToleranceIsExact(failures, total, cfg);
    if failures > 0 {
      ToleranceIsExact(failures - 1, total, cfg);
    }
  }

  // ----- The order of items -----

  predicate Ordered(s: seq<BatchItem>) {
    forall i, j :: 0 <= i < j < |s| ==> s[i].index <= s[j].index
  }

  predicate Distinct(s: seq<BatchItem>) {
    forall i, j :: 0 <= i < j < |s| ==> s[i].index != s[j].index
  }

  /** An item put in its place, behind those with the same index. */
  function Insert(s: seq<BatchItem>, x: BatchItem): (r: seq<BatchItem>)
    ensures |r| == |s| + 1
    ensures forall y :: y in r <==> y in s || y == x
  {
    if s == [] || s[|s| - 1].index <= x.index then s + [x]
    else
      var r := Insert(s[..|s| - 1], x) + [s[|s| - 1]];
      assert s == s[..|s| - 1] + [s[|s| - 1]];
      r
  }

  /** `sort_by_key` on the index: the stable order. */
  function Sorted(s: seq<BatchItem>): (r: seq<BatchItem>)
    ensures |r| == |s|
    ensures forall y :: y in r <==> y in s
  {
    if s == [] then []
    else
      assert s == s[..|s| - 1] + [s[|s| - 1]];
      Insert(Sorted(s[..|s| - 1]), s[|s| - 1])
  }

  lemma {:induction false} InsertKeepsOrder(s: seq<BatchItem>, x: BatchItem)
    requires Ordered(s)
    ensures Ordered(Insert(s, x))
  {
    if s != [] && s[|s| - 1].index > x.index {
      var front, last := s[..|s| - 1], s[|s| - 1];
      InsertKeepsOrder(front, x);
      assert forall y :: y in front ==> y.index <= last.index;
      var r := Insert(front, x);
      assert forall i :: 0 <= i < |r| ==> r[i] in r;
    }
  }

  lemma {:induction false} SortedIsOrdered(s: seq<BatchItem>)
    ensures Ordered(Sorted(s))
  {
    if s != [] {
      SortedIsOrdered(s[..|s| - 1]);
      InsertKeepsOrder(Sorted(s[..|s| - 1]), s[|s| - 1]);
    }
  }

  /** The items with one index, in the order they have. */
  function WithIndex(s: seq<BatchItem>, k: nat): seq<BatchItem> {
    if s == [] then []
    else WithIndex(s[..|s| - 1], k) + if s[|s| - 1].index == k then [s[|s| - 1]] else []
  }

  lemma {:induction false} InsertIsStable(s: seq<BatchItem>, x: BatchItem, k: nat)
    requires Ordered(s)
    ensures WithIndex(Insert(s, x), k) == WithIndex(s, k) + if x.index == k then [x] else []
  {
    if s == [] || s[|s| - 1].index <= x.index {
      assert (s + [x])[..|s|] == s;
    } else {
      var front, last := s[..|s| - 1], s[|s| - 1];
      InsertIsStable(front, x, k);
      assert (Insert(front, x) + [last])[..|s|] == Insert(front, x);
      if x.index == k {
        assert last.index != k;
      }
    }
  }

  /** Sorting never reorders items with the same index, and neither loses nor adds any. */
  lemma {:induction false} SortedIsStable(s: seq<BatchItem>, k: nat)
    ensures WithIndex(Sorted(s), k) == WithIndex(s, k)
  {
    if s != [] {
      SortedIsStable(s[..|s| - 1], k);
      SortedIsOrdered(s[..|s| - 1]);
      InsertIsStable(Sorted(s[..|s| - 1]), s[|s| - 1], k);
    }
  }

  lemma {:induction false} OrderedIsSorted(s: seq<BatchItem>)
    requires Ordered(s)
    ensures Sorted(s) == s
  {
    if s != [] {
      OrderedIsSorted(s[..|s| - 1]);
      assert s == s[..|s| - 1] + [s[|s| - 1]];
    }
  }

  lemma {:induction false} InsertKeepsDistinct(s: seq<BatchItem>, x: BatchItem)
    requires Distinct(s) && forall y :: y in s ==> y.index != x.index
    ensures Distinct(Insert(s, x))
  {
    if s != [] && s[|s| - 1].index > x.index {
      var front, last := s[..|s| - 1], s[|s| - 1];
      InsertKeepsDistinct(front, x);
      assert forall y :: y in front ==> y.index != last.index;
    }
  }

  lemma {:induction false} SortedKeepsDistinct(s: seq<BatchItem>)
    requires Distinct(s)
    ensures Distinct(Sorted(s))
  {
    if s != [] {
      var front, last := s[..|s| - 1], s[|s| - 1];
      SortedKeepsDistinct(front);
      InsertKeepsDistinct(Sorted(front), last);
    }
  }

  lemma {:induction false} AtLeast(s: seq<BatchItem>, i: nat)
    requires Ordered(s) && Distinct(s) && i < |s|
    ensures s[i].index >= i
  {
    if i > 0 {
      AtLeast(s, i - 1);
    }
  }

  lemma {:induction false} AtMost(s: seq<BatchItem>, i: nat)
    requires Ordered(s) && Distinct(s) && i < |s|
    requires forall j :: 0 <= j < |s| ==> s[j].index < |s|
    ensures s[i].index <= i
    decreases |s| - i
  {
    if i + 1 < |s| {
      AtMost(s, i + 1);
    }
  }

  /** Distinct indices below their number, in order, are 0, 1, 2, … */
  lemma {:induction false} OrderedDistinctFills(s: seq<BatchItem>, i: nat)
    requires Ordered(s) && Distinct(s) && i < |s|
    requires forall j :: 0 <= j < |s| ==> s[j].index < |s|
    ensures s[i].index == i
  {
    AtLeast(s, i);
    AtMost(s, i);
  }

  // ----- The batch that belongs to a state of its children -----

  /** For each started child its outcome, if it has completed. */
  type Progress = seq<Option<Outcome>>

  function ItemOf(i: nat, p: Option<Outcome>): BatchItem {
    match p
    case None => BatchItem(i, ItemStarted, None, None)
    case Some(Ok(v)) => BatchItem(i, ItemSucceeded, Some(v), None)
    case Some(Err(e)) => BatchItem(i, ItemFailed, None, Some(e))
  }

  function ItemsOf(p: Progress): (s: seq<BatchItem>)
    ensures |s| == |p|
    ensures forall i :: 0 <= i < |p| ==> s[i] == ItemOf(i, p[i])
  {
    seq(|p|, i requires 0 <= i < |p| => ItemOf(i, p[i]))
  }

  function FailureCount(p: Progress): (n: nat)
    ensures n <= |p|
  {
    if p == [] then 0
    else FailureCount(p[..|p| - 1]) + if p[|p| - 1].Some? && p[|p| - 1].value.Err? then 1 else 0
  }

  function SuccessCount(p: Progress): (n: nat)
    ensures n + FailureCount(p) <= |p|
  {
    if p == [] then 0
    else SuccessCount(p[..|p| - 1]) + if p[|p| - 1].Some? && p[|p| - 1].value.Ok? then 1 else 0
  }

  function CompletedCount(p: Progress): nat {
    SuccessCount(p) + FailureCount(p)
  }

  /** Every child that has completed gave the outcome it has. */
  predicate GivesOutcomes(p: Progress, outcomes: seq<Outcome>) {
    |p| <= |outcomes| && forall i :: 0 <= i < |p| ==> p[i].None? || p[i] == Some(outcomes[i])
  }

  /** What a batch of `total` items returns when its started children are as `p` says. */
  /** An item tells its child's place and state: in flight, its value, or its error. */
  lemma ItemsTell(p: Progress, i: nat)
    requires i < |p|
    ensures var x := ItemsOf(p)[i];
            && x.index == i
            && (x.status == ItemStarted <==> p[i].None?)
            && (forall v :: p[i] == Some(Ok(v)) <==> x.status == ItemSucceeded && x.result == Some(v))
            && (forall e :: p[i] == Some(Err(e)) <==> x.status == ItemFailed && x.error == Some(e))
            && (x.result.Some? ==> x.status == ItemSucceeded) && (x.error.Some? ==> x.status == ItemFailed)
  {
  }

  function BatchOf(p: Progress, total: nat, cfg: CompletionConfig): BatchResult {
    BatchResult(ItemsOf(p), Reason(FailureCount(p), SuccessCount(p), CompletedCount(p), total, cfg))
  }

  lemma {:induction false} CountsAfterCompletion(p: Progress, i: nat, o: Outcome)
    requires i < |p| && p[i].None?
    ensures SuccessCount(p[i := Some(o)]) == SuccessCount(p) + if o.Ok? then 1 else 0
    ensures FailureCount(p[i := Some(o)]) == FailureCount(p) + if o.Err? then 1 else 0
  {
    var front := p[..|p| - 1];
    var q := p[i := Some(o)];
    if i == |p| - 1 {
      assert q[..|p| - 1] == front;
    } else {
      CountsAfterCompletion(front, i, o);
      assert q[..|p| - 1] == front[i := Some(o)];
    }
  }

  lemma CountsAfterStart(p: Progress)
    ensures SuccessCount(p + [None]) == SuccessCount(p)
    ensures FailureCount(p + [None]) == FailureCount(p)
  {
    assert (p + [None])[..|p|] == p;
  }

  /** The items of a batch determine what its children did. */
  lemma ItemsDetermineProgress(p: Progress, q: Progress)
    requires ItemsOf(p) == ItemsOf(q)
    ensures p == q
  {
    forall i | 0 <= i < |p|
      ensures p[i] == q[i]
    {
      assert ItemOf(i, p[i]) == ItemsOf(q)[i];
    }
  }

  /** Items pushed in any order, one per started child, are sorted into the batch. */
  lemma {:induction false} SortFills(all: seq<BatchItem>, p: Progress)
    requires |all| == |p| && Distinct(all)
    requires forall x :: x in all ==> x.index < |p| && x == ItemOf(x.index, p[x.index])
    ensures Sorted(all) == ItemsOf(p)
  {
    var s := Sorted(all);
    SortedIsOrdered(all);
    SortedKeepsDistinct(all);
    forall i | 0 <= i < |p|
      ensures s[i] == ItemOf(i, p[i])
    {
      assert s[i] in s;
      OrderedDistinctFills(s, i);
    }
  }
}
