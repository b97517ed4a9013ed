/**
 Waiting for a condition over any number of invocations, each cut after any number of
 effects: the answer is the one the check function and the strategy determine.
 */
module PollRuns {
  import opened Wrappers
  import opened Operations

  datatype PollSetting = PollSetting(cfg: PollConfig, path: Path, env: Env)

  /** An invocation that reaches the operation and is cut after `cut` effects, or a due retry becoming ready. */
  datatype PollEvent = Invoke(cut: nat) | MakeReady

  function PlanOf(rec: Option<Record>, z: PollSetting): Plan {
    PollPlan(rec, z.cfg, z.path, z.env)
  }

  function Next(rec: Option<Record>, z: PollSetting, ev: PollEvent): Option<Record> {
    match ev
    case Invoke(cut) =>
      var es := PlanOf(rec, z).effects;
      ApplyEffects(rec, es[..Min(cut, |es|)])
    case MakeReady =>
      if rec.Some? && rec.value.status == Pending then Some(rec.value.(status := Ready)) else rec
  }

  function After(h: seq<PollEvent>, z: PollSetting): Option<Record> {
    if h == [] then None else Next(After(h[..|h| - 1], z), z, h[|h| - 1])
  }

  /** The outcome of an invocation that finds `rec` and is cut after `cut` effects. */
  function Returned(rec: Option<Record>, z: PollSetting, cut: nat): Option<Outcome> {
    var plan := PlanOf(rec, z);
    if plan.ending.Return? && |plan.effects| <= cut then Some(plan.ending.o) else None
  }

  // ----- The answer -----

  /** The check function applied `n` times to the initial state. */
  function Iterate(cfg: PollConfig, n: nat): Option<Value> {
    if n == 0 then Some(cfg.initial)
    else
      match Iterate(cfg, n - 1)
      case None => None
      case Some(s) => (match cfg.check(s) case Ok(v) => Some(v) case Err(_) => None)
  }

  predicate Stops(cfg: PollConfig, n: nat) {
    Iterate(cfg, n).Some? && cfg.stop(Iterate(cfg, n).value, n)
  }

  /** `n` checks succeed and the strategy stops after none of them. */
  ghost predicate Reaches(cfg: PollConfig, n: nat) {
    Iterate(cfg, n).Some? && forall m :: 1 <= m <= n ==> !Stops(cfg, m)
  }

  ghost predicate FirstStop(cfg: PollConfig, n: nat) {
    n >= 1 && Stops(cfg, n) && forall m :: 1 <= m < n ==> !Stops(cfg, m)
  }

  predicate WithinLimit(cfg: PollConfig, n: nat) {
    cfg.maxAttempts.Some? ==> n <= cfg.maxAttempts.value
  }

  ghost predicate Exceeds(cfg: PollConfig, e: DurableError) {
    && cfg.maxAttempts.Some? && Reaches(cfg, cfg.maxAttempts.value)
    && e == WaitConditionExceeded(cfg.maxAttempts.value + 1)
  }

  ghost predicate CheckFails(cfg: PollConfig, n: nat, e: DurableError) {
    Reaches(cfg, n) && WithinLimit(cfg, n + 1) && cfg.check(Iterate(cfg, n).value) == Err(e)
  }

  /** Without reference to any schedule: the outcome polling has. */
  ghost predicate Answer(cfg: PollConfig, o: Outcome) {
    match o
    case Ok(v) => exists n: nat :: FirstStop(cfg, n) && WithinLimit(cfg, n) && Iterate(cfg, n) == Some(v)
    case Err(e) => Exceeds(cfg, e) || exists n: nat :: CheckFails(cfg, n, e)
  }

  lemma {:induction false} IterateStaysUndefined(cfg: PollConfig, m: nat, n: nat)
    requires m <= n && Iterate(cfg, n).Some?
    ensures Iterate(cfg, m).Some?
    decreases n
  {
    if m < n {
      IterateStaysUndefined(cfg, m, n - 1);
    }
  }

  /** There is at most one answer. */
  lemma AnswerIsUnique(cfg: PollConfig, o: Outcome, p: Outcome)
    requires Answer(cfg, o) && Answer(cfg, p)
    ensures o == p
  {
    forall m: nat, n: nat, e | CheckFails(cfg, m, e) && Iterate(cfg, n).Some?
      ensures n <= m
    {
      if m < n {
        IterateStaysUndefined(cfg, m + 1, n);
      }
    }
  }

  lemma {:induction false} FirstOfSome(cfg: PollConfig, n: nat) returns (first: nat)
    requires n >= 1 && Stops(cfg, n)
    ensures FirstStop(cfg, first) && first <= n
    decreases n
  {
    if m: nat :| 1 <= m < n && Stops(cfg, m) {
      first := FirstOfSome(cfg, m);
    } else {
      first := n;
    }
  }

  /** The limit is exceeded exactly when the checks succeed and no stopping attempt lies within it. */
  lemma ExceedsExactly(cfg: PollConfig, max: nat)
    requires cfg.maxAttempts == Some(max) && Iterate(cfg, max).Some?
    ensures Answer(cfg, Err(WaitConditionExceeded(max + 1))) && Reaches(cfg, max)
            <==> !exists n: nat :: FirstStop(cfg, n) && n <= max
  {
    if Reaches(cfg, max) {
      assert Exceeds(cfg, WaitConditionExceeded(max + 1));
    } else {
      var m: nat :| 1 <= m <= max && Stops(cfg, m);
      var n := FirstOfSome(cfg, m);
    }
  }

  // ----- Runs -----

  /** What the record says about how far polling has come. */
  ghost predicate Consistent(rec: Option<Record>, z: PollSetting) {
    rec.None? ||
    var r := rec.value;
    var a := r.attempt.GetOr(0);
    match r.status
    case Succeeded =>
      exists n: nat :: FirstStop(z.cfg, n) && WithinLimit(z.cfg, n)
                       && r.result == Some(z.env.encode(Iterate(z.cfg, n).value))
    case Failed =>
      && z.cfg.maxAttempts == Some(a) && Reaches(z.cfg, a)
      && r.error == Some(z.env.show(WaitConditionExceeded(a + 1)))
    case _ =>
      && Reaches(z.cfg, a) && WithinLimit(z.cfg, a)
      && r.result == (if a == 0 then None else Some(z.env.encode(Iterate(z.cfg, a).value)))
  }

  /** The check of the next attempt starts from the state of the last recorded one. */
  lemma StateIsIterate(rec: Option<Record>, z: PollSetting)
    requires CodecRoundTrips(z.env) && Consistent(rec, z) && !IsFinal(rec)
    ensures Iterate(z.cfg, AttemptOf(rec) - 1) == Some(PollState(rec, z.cfg, z.env))
    ensures Reaches(z.cfg, AttemptOf(rec) - 1) && WithinLimit(z.cfg, AttemptOf(rec) - 1)
  {
  }

  lemma NextAttempt(cfg: PollConfig, a: nat, v: Value)
    requires Reaches(cfg, a) && cfg.check(Iterate(cfg, a).value) == Ok(v)
    ensures Iterate(cfg, a + 1) == Some(v)
    ensures cfg.stop(v, a + 1) <==> FirstStop(cfg, a + 1)
    ensures !cfg.stop(v, a + 1) <==> Reaches(cfg, a + 1)
  {
    assert Stops(cfg, a + 1) == cfg.stop(v, a + 1);
  }

  /** What one executing invocation, cut after `cut` effects, does. */
  ghost predicate Invoked(rec: Option<Record>, z: PollSetting, cut: nat) {
    var plan := PlanOf(rec, z);
    var next := Next(rec, z, Invoke(cut));
    && Consistent(next, z)
    && (Returned(rec, z, cut).Some? ==> Answer(z.cfg, Returned(rec, z, cut).value))
    && (cut < |plan.effects| ==> AttemptOf(next) == AttemptOf(rec))
    && (cut >= |plan.effects| && plan.ending.Suspend? ==> AttemptOf(next) == AttemptOf(rec) + 1)
  }

  predicate OverLimit(rec: Option<Record>, cfg: PollConfig) {
    cfg.maxAttempts.Some? && AttemptOf(rec) > cfg.maxAttempts.value
  }

  lemma OverLimitInvocation(rec: Option<Record>, z: PollSetting, cut: nat)
    requires CodecRoundTrips(z.env) && Consistent(rec, z) && !IsFinal(rec) && OverLimit(rec, z.cfg)
    ensures Invoked(rec, z, cut)
  {
    var es := PlanOf(rec, z).effects;
    ApplyUnfolds(rec, es, Min(cut, |es|));
    StateIsIterate(rec, z);
    assert Exceeds(z.cfg, WaitConditionExceeded(AttemptOf(rec)));
  }

  lemma FailedCheckInvocation(rec: Option<Record>, z: PollSetting, cut: nat)
    requires CodecRoundTrips(z.env) && Consistent(rec, z) && !IsFinal(rec) && !OverLimit(rec, z.cfg)
    requires z.cfg.check(PollState(rec, z.cfg, z.env)).Err?
    ensures Invoked(rec, z, cut)
  {
    var es := PlanOf(rec, z).effects;
    ApplyUnfolds(rec, es, Min(cut, |es|));
    StateIsIterate(rec, z);
    assert CheckFails(z.cfg, AttemptOf(rec) - 1, z.cfg.check(PollState(rec, z.cfg, z.env)).error);
  }

  /** The record of one more attempt. */
  lemma RecordedAttempt(rec: Option<Record>, z: PollSetting, v: Value)
    requires CodecRoundTrips(z.env) && Consistent(rec, z) && !IsFinal(rec) && !OverLimit(rec, z.cfg)
    requires z.cfg.check(PollState(rec, z.cfg, z.env)) == Ok(v)
    ensures var stops := z.cfg.stop(v, AttemptOf(rec));
            var next := Some(ApplyWrite(rec, StepWrite(if stops then Succeed else Retry, Some(z.env.encode(v)), None)));
            && Consistent(next, z)
            && (stops ==> Answer(z.cfg, Ok(v)))
            && (!stops ==> AttemptOf(next) == AttemptOf(rec) + 1)
  {
    StateIsIterate(rec, z);
    NextAttempt(z.cfg, AttemptOf(rec) - 1, v);
  }

  lemma CheckedInvocation(rec: Option<Record>, z: PollSetting, cut: nat)
    requires CodecRoundTrips(z.env) && Consistent(rec, z) && !IsFinal(rec) && !OverLimit(rec, z.cfg)
    requires z.cfg.check(PollState(rec, z.cfg, z.env)).Ok?
    ensures Invoked(rec, z, cut)
  {
    var es := PlanOf(rec, z).effects;
    var m := Min(cut, |es|);
    ApplyUnfolds(rec, es, m);
    var start := StepWrite(Start, None, None);
    var started := if rec.Some? then rec else Some(ApplyWrite(rec, start));
    var v := z.cfg.check(PollState(rec, z.cfg, z.env)).value;
    var stops := z.cfg.stop(v, AttemptOf(rec));
    var end := Persist(StepWrite(if stops then Succeed else Retry, Some(z.env.encode(v)), None));
    assert es == (if rec.Some? then [] else [Persist(start)]) + [EnterBody(AttemptOf(rec)), end];
    assert Consistent(started, z) && !IsFinal(started) && AttemptOf(started) == AttemptOf(rec);
    RecordedAttempt(started, z, v);
    if m < |es| {
      assert ApplyEffects(rec, es[..m]) == rec || ApplyEffects(rec, es[..m]) == started;
    } else {
      assert ApplyEffects(rec, es[..m]) == ApplyEffect(started, end);
    }
  }

  /**
   One executing invocation: an uncut one gives the answer or records one more attempt; a cut
   one loses nothing.
   */
  lemma OneInvocation(rec: Option<Record>, z: PollSetting, cut: nat)
    requires CodecRoundTrips(z.env) && Consistent(rec, z) && !IsFinal(rec)
    ensures Invoked(rec, z, cut)
  {
    if OverLimit(rec, z.cfg) {
      OverLimitInvocation(rec, z, cut);
    } else if z.cfg.check(PollState(rec, z.cfg, z.env)).Err? {
      FailedCheckInvocation(rec, z, cut);
    } else {
      CheckedInvocation(rec, z, cut);
    }
  }

  lemma {:induction false} HistoryIsConsistent(h: seq<PollEvent>, z: PollSetting)
    requires CodecRoundTrips(z.env)
    ensures Consistent(After(h, z), z)
  {
    if h != [] {
      var rec := After(h[..|h| - 1], z);
      HistoryIsConsistent(h[..|h| - 1], z);
      match h[|h| - 1]
      case MakeReady =>
      case Invoke(cut) =>
        if IsFinal(rec) {
          assert PlanOf(rec, z).effects == [];
        } else {
          OneInvocation(rec, z, cut);
        }
    }
  }

  /**
   Cuts cannot be observed.  In every history, an invocation that returns without finding the
   record Failed returns the answer that the check function and the strategy determine: so
   whenever it succeeds, with the check applied `n` times to the initial state, where `n` is
   the first attempt the strategy stops at.
   */
  lemma PollingGivesTheAnswer(h: seq<PollEvent>, z: PollSetting, cut: nat)
    requires CodecRoundTrips(z.env)
    requires Returned(After(h, z), z, cut).Some?
    requires After(h, z).Some? ==> After(h, z).value.status != Failed
    ensures Answer(z.cfg, Returned(After(h, z), z, cut).value)
  {
    var rec := After(h, z);
    HistoryIsConsistent(h, z);
    if !IsFinal(rec) {
      OneInvocation(rec, z, cut);
    }
  }

  // ----- Every answer is given -----

  /** How many invocations of a history were not cut. */
  function Uncut(h: seq<PollEvent>, z: PollSetting): nat {
    if h == [] then 0
    else
      var front, ev := h[..|h| - 1], h[|h| - 1];
      Uncut(front, z) + if ev.Invoke? && |PlanOf(After(front, z), z).effects| <= ev.cut then 1 else 0
  }

  /** A cut invocation leaves the operation open and its attempt where it was. */
  lemma CutLeavesOpen(rec: Option<Record>, z: PollSetting, cut: nat)
    requires !IsFinal(rec) && cut < |PlanOf(rec, z).effects|
    ensures var next := Next(rec, z, Invoke(cut));
            !IsFinal(next) && AttemptOf(next) == AttemptOf(rec)
  {
    ApplyUnfolds(rec, PlanOf(rec, z).effects, cut);
  }

  /** An uncut check that neither fails nor stops records one more attempt. */
  lemma UncutGoesOn(rec: Option<Record>, z: PollSetting, n: nat, cut: nat)
    requires CodecRoundTrips(z.env) && Consistent(rec, z) && !IsFinal(rec) && AttemptOf(rec) <= n
    requires Reaches(z.cfg, n) && WithinLimit(z.cfg, n) && |PlanOf(rec, z).effects| <= cut
    ensures var next := Next(rec, z, Invoke(cut));
            !IsFinal(next) && AttemptOf(next) == AttemptOf(rec) + 1
  {
    var es := PlanOf(rec, z).effects;
    StateIsIterate(rec, z);
    IterateStaysUndefined(z.cfg, AttemptOf(rec), n);
    ApplyUnfolds(rec, es, |es|);
    assert !Stops(z.cfg, AttemptOf(rec));
  }

  /** As long as no attempt stops, fails or exceeds the limit, the record counts the uncut invocations. */
  lemma {:induction false} RecordCountsUncut(h: seq<PollEvent>, z: PollSetting, n: nat)
    requires CodecRoundTrips(z.env)
    requires Reaches(z.cfg, n) && WithinLimit(z.cfg, n) && Uncut(h, z) <= n
    ensures !IsFinal(After(h, z)) && AttemptOf(After(h, z)) == Uncut(h, z) + 1
  {
    if h != [] {
      var front := h[..|h| - 1];
      var rec := After(front, z);
      RecordCountsUncut(front, z, n);
      HistoryIsConsistent(front, z);
      match h[|h| - 1]
      case MakeReady =>
      case Invoke(cut) =>
        if cut < |PlanOf(rec, z).effects| {
          CutLeavesOpen(rec, z, cut);
        } else {
          UncutGoesOn(rec, z, n, cut);
        }
    }
  }

  /**
   After `n` uncut invocations that neither stopped nor failed, whatever cut ones lie between,
   the next uncut one returns exactly if the limit is exceeded, the check fails or the strategy stops.
   */
  lemma NextUncutInvocation(h: seq<PollEvent>, z: PollSetting, n: nat, cut: nat)
    requires CodecRoundTrips(z.env) && Reaches(z.cfg, n) && WithinLimit(z.cfg, n)
    requires Uncut(h, z) == n && cut >= 3
    ensures Returned(After(h, z), z, cut)
         == if z.cfg.maxAttempts == Some(n) then Some(Err(WaitConditionExceeded(n + 1)))
            else match z.cfg.check(Iterate(z.cfg, n).value)
                 case Err(e) => Some(Err(e))
                 case Ok(v) => if z.cfg.stop(v, n + 1) then Some(Ok(v)) else None
  {
    RecordCountsUncut(h, z, n);
    HistoryIsConsistent(h, z);
    StateIsIterate(After(h, z), z);
  }

  ghost predicate GivenAfter(z: PollSetting, n: nat, o: Outcome) {
    forall h: seq<PollEvent>, cut: nat :: Uncut(h, z) == n && cut >= 3 ==> Returned(After(h, z), z, cut) == Some(o)
  }

  /** The number of uncut invocations after which the next one gives the answer. */
  lemma AnswerComesAt(z: PollSetting, o: Outcome) returns (n: nat)
    requires Answer(z.cfg, o)
    ensures Reaches(z.cfg, n) && WithinLimit(z.cfg, n)
    ensures match o
            case Ok(v) => FirstStop(z.cfg, n + 1) && Iterate(z.cfg, n + 1) == Some(v) && WithinLimit(z.cfg, n + 1)
            case Err(e) => (z.cfg.maxAttempts == Some(n) && Exceeds(z.cfg, e)) || CheckFails(z.cfg, n, e)
  {
    match o {
      case Ok(v) =>
        var m: nat :| FirstStop(z.cfg, m) && WithinLimit(z.cfg, m) && Iterate(z.cfg, m) == Some(v);
        n := m - 1;
      case Err(e) =>
        if Exceeds(z.cfg, e) {
          n := z.cfg.maxAttempts.value;
        } else {
          n :| CheckFails(z.cfg, n, e);
        }
    }
  }

  function UncutInvocations(n: nat): seq<PollEvent> {
    if n == 0 then [] else UncutInvocations(n - 1) + [Invoke(3)]
  }

  lemma PlansAreShort(rec: Option<Record>, z: PollSetting)
    ensures |PlanOf(rec, z).effects| <= 3
  {
  }

  lemma OneMoreUncut(h: seq<PollEvent>, z: PollSetting)
    ensures Uncut(h + [Invoke(3)], z) == Uncut(h, z) + 1
  {
    assert (h + [Invoke(3)])[..|h|] == h;
    PlansAreShort(After(h, z), z);
  }

  lemma {:induction false} AllAreUncut(z: PollSetting, n: nat)
    ensures Uncut(UncutInvocations(n), z) == n
  {
    if n > 0 {
      var h := UncutInvocations(n - 1);
      AllAreUncut(z, n - 1);
      OneMoreUncut(h, z);
      assert UncutInvocations(n) == h + [Invoke(3)];
    }
  }

  /**
   Whenever polling has an answer, some number of uncut invocations is enough: in every history
   with that many, the next uncut invocation returns it.  There are such histories.
   */
  lemma EveryAnswerIsGiven(z: PollSetting, o: Outcome) returns (n: nat)
    requires CodecRoundTrips(z.env) && Answer(z.cfg, o)
    ensures GivenAfter(z, n, o)
    ensures o.Ok? ==> FirstStop(z.cfg, n + 1)
    ensures Uncut(UncutInvocations(n), z) == n
  {
    n := AnswerComesAt(z, o);
    AllAreUncut(z, n);
    forall h: seq<PollEvent>, cut: nat | Uncut(h, z) == n && cut >= 3
      ensures Returned(After(h, z), z, cut) == Some(o)
    {
      NextUncutInvocation(h, z, n, cut);
    }
  }

  /** Two invocations that return, in any two histories, return the same unless one replays a failure. */
  lemma AllSchedulesAgree(h: seq<PollEvent>, cut: nat, h': seq<PollEvent>, cut': nat, z: PollSetting)
    requires CodecRoundTrips(z.env)
    requires Returned(After(h, z), z, cut).Some? && Returned(After(h', z), z, cut').Some?
    requires After(h, z).Some? ==> After(h, z).value.status != Failed
    requires After(h', z).Some? ==> After(h', z).value.status != Failed
    ensures Returned(After(h, z), z, cut) == Returned(After(h', z), z, cut')
  {
    PollingGivesTheAnswer(h, z, cut);
    PollingGivesTheAnswer(h', z, cut');
    AnswerIsUnique(z.cfg, Returned(After(h, z), z, cut).value, Returned(After(h', z), z, cut').value);
  }

  /** The error an exceeded limit comes back as: the attempts recorded, at least one, and the text of the first error. */
  function ReplayedExceeded(rec: Option<Record>, z: PollSetting): DurableError {
    var attempts := if rec.Some? then rec.value.attempt.GetOr(1) else 1;
    StepFailed(z.path, attempts, z.env.show(WaitConditionExceeded(AttemptOf(rec))))
  }

  /** What the invocation after a returning one finds and gives, when the limit was exceeded. */
  lemma ReplayOfExceeded(rec: Option<Record>, z: PollSetting, cut: nat, cut': nat)
    requires CodecRoundTrips(z.env) && !IsFinal(rec) && OverLimit(rec, z.cfg)
    requires Returned(rec, z, cut).Some?
    ensures Returned(rec, z, cut) == Some(Err(WaitConditionExceeded(AttemptOf(rec))))
    ensures Returned(Next(rec, z, Invoke(cut)), z, cut') == Some(Err(ReplayedExceeded(rec, z)))
  {
    var es := PlanOf(rec, z).effects;
    ApplyUnfolds(rec, es, |es|);
    assert es[..|es|] == es;
  }

  /** The same when the check of the last attempt failed: the attempt is made again, and fails again. */
  lemma ReplayOfFailedCheck(rec: Option<Record>, z: PollSetting, cut: nat, cut': nat)
    requires !IsFinal(rec) && !OverLimit(rec, z.cfg)
    requires z.cfg.check(PollState(rec, z.cfg, z.env)).Err?
    requires Returned(rec, z, cut).Some? && cut' >= 3
    ensures Returned(Next(rec, z, Invoke(cut)), z, cut') == Returned(rec, z, cut)
  {
    var es := PlanOf(rec, z).effects;
    ApplyUnfolds(rec, es, |es|);
    assert es[..|es|] == es;
    var next := Next(rec, z, Invoke(cut));
    assert AttemptOf(next) == AttemptOf(rec);
    assert PollState(next, z.cfg, z.env) == PollState(rec, z.cfg, z.env);
    assert |PlanOf(next, z).effects| <= 3;
  }

  /** The same when polling stopped with a value. */
  lemma ReplayOfValue(rec: Option<Record>, z: PollSetting, cut: nat, cut': nat)
    requires CodecRoundTrips(z.env) && !IsFinal(rec) && !OverLimit(rec, z.cfg)
    requires z.cfg.check(PollState(rec, z.cfg, z.env)).Ok?
    requires Returned(rec, z, cut).Some?
    ensures Returned(Next(rec, z, Invoke(cut)), z, cut') == Returned(rec, z, cut)
  {
    var es := PlanOf(rec, z).effects;
    ApplyUnfolds(rec, es, |es|);
    assert es[..|es|] == es;
  }

  lemma ReplayOfReturn(rec: Option<Record>, z: PollSetting, cut: nat, cut': nat)
    requires CodecRoundTrips(z.env) && !IsFinal(rec) && Consistent(rec, z)
    requires Returned(rec, z, cut).Some? && cut' >= 3
    ensures var again := Returned(Next(rec, z, Invoke(cut)), z, cut');
            && again.Some?
            && (again == Returned(rec, z, cut) <==> !OverLimit(rec, z.cfg))
            && (OverLimit(rec, z.cfg) ==> again == Some(Err(ReplayedExceeded(rec, z))))
  {
    if OverLimit(rec, z.cfg) {
      ReplayOfExceeded(rec, z, cut, cut');
    } else if z.cfg.check(PollState(rec, z.cfg, z.env)).Err? {
      ReplayOfFailedCheck(rec, z, cut, cut');
    } else {
      ReplayOfValue(rec, z, cut, cut');
    }
  }

  lemma {:induction false} AttemptsAreCounted(h: seq<PollEvent>, z: PollSetting)
    ensures After(h, z).Some? ==> After(h, z).value.attempt != Some(0)
  {
    if h != [] {
      var rec := After(h[..|h| - 1], z);
      AttemptsAreCounted(h[..|h| - 1], z);
      match h[|h| - 1]
      case MakeReady =>
      case Invoke(cut) =>
        var es := PlanOf(rec, z).effects;
        PlansAreShort(rec, z);
        ApplyUnfolds(rec, es, Min(cut, |es|));
    }
  }

  /** An exceeded limit, found after a history, and what the next invocation makes of it. */
  lemma ExceededComesBack(h: seq<PollEvent>, z: PollSetting, cut: nat, cut': nat)
    requires CodecRoundTrips(z.env)
    requires var rec := After(h, z);
             !IsFinal(rec) && OverLimit(rec, z.cfg) && Returned(rec, z, cut).Some?
    ensures var rec := After(h, z);
            var max, e := z.cfg.maxAttempts.value, WaitConditionExceeded(z.cfg.maxAttempts.value + 1);
            && Returned(rec, z, cut) == Some(Err(e))
            && Returned(Next(rec, z, Invoke(cut)), z, cut') == Some(Err(StepFailed(z.path, Max(1, max), z.env.show(e))))
  {
    HistoryIsConsistent(h, z);
    AttemptsAreCounted(h, z);
    ReplayOfExceeded(After(h, z), z, cut, cut');
  }

  /**
   What the next invocation sees after one that returned: the same outcome, exactly if the
   attempt limit was not exceeded.  The exceeded limit comes back as a failed step, with the
   number of attempts recorded, at least one, and the text of the error returned first.
   */
  lemma ReplayRepeatsUnlessExceeded(h: seq<PollEvent>, z: PollSetting, cut: nat, cut': nat)
    requires CodecRoundTrips(z.env)
    requires var rec := After(h, z);
             !IsFinal(rec) && Returned(rec, z, cut).Some? && cut' >= 3
    ensures var rec := After(h, z);
            var again := Returned(Next(rec, z, Invoke(cut)), z, cut');
            && again.Some?
            && (again == Returned(rec, z, cut) <==> !OverLimit(rec, z.cfg))
    ensures var rec := After(h, z);
            OverLimit(rec, z.cfg) ==>
              var max, e := z.cfg.maxAttempts.value, Returned(rec, z, cut).value.error;
              && e == WaitConditionExceeded(max + 1)
              && Returned(Next(rec, z, Invoke(cut)), z, cut') == Some(Err(StepFailed(z.path, Max(1, max), z.env.show(e))))
  {
    var rec := After(h, z);
    HistoryIsConsistent(h, z);
    ReplayOfReturn(rec, z, cut, cut');
    if OverLimit(rec, z.cfg) {
      ExceededComesBack(h, z, cut, cut');
    }
  }

  // ----- Records, whoever wrote them -----

  /** A poll that finds a value recorded gives it if it can be decoded, and an error otherwise; it does nothing. */
  lemma SucceededReads(rec: Record, cfg: PollConfig, path: Path, env: Env)
    requires rec.status == Succeeded
    ensures var plan := PollPlan(Some(rec), cfg, path, env);
            && plan.effects == [] && plan.ending.Return?
            && (forall v :: plan.ending.o == Ok(v) <==> rec.result.Some? && env.decode(rec.result.value) == Some(v))
            && (plan.ending.o.Err? ==> plan.ending.o == Err(Internal("Missing wait-for-condition result in replay")))
  {
  }

  /** One that finds a failure gives its text, and the attempts recorded. */
  lemma FailedReads(rec: Record, cfg: PollConfig, path: Path, env: Env, m: string)
    requires rec.status == Failed && (rec.error == Some(m) || (rec.error.None? && m == "Wait for condition failed"))
    ensures PollPlan(Some(rec), cfg, path, env) == Plan([], Return(Err(StepFailed(path, rec.attempt.GetOr(1), m))))
  {
  }

  /** The state a check starts from: the recorded one if it can be decoded, the initial one otherwise. */
  lemma StateReads(rec: Record, cfg: PollConfig, env: Env)
    ensures PollState(None, cfg, env) == cfg.initial
    ensures rec.result.None? ==> PollState(Some(rec), cfg, env) == cfg.initial
    ensures rec.result.Some? && env.decode(rec.result.value).None? ==> PollState(Some(rec), cfg, env) == cfg.initial
    ensures rec.result.Some? && env.decode(rec.result.value).Some? ==>
              PollState(Some(rec), cfg, env) == env.decode(rec.result.value).value
  {
  }

  /** The limit is looked at before anything is done: beyond it the failure is written, and no check is made. */
  lemma LimitComesFirst(rec: Option<Record>, z: PollSetting)
    requires !IsFinal(rec) && OverLimit(rec, z.cfg)
    ensures var es := PlanOf(rec, z).effects;
            |es| == 1 && es[0].Persist? && es[0].w.action == Fail && es[0].w.kind == StepKind
  {
  }

  /** Within it, one check is made, after a START if there is no record, and its value is written. */
  lemma OneCheckIsMade(rec: Option<Record>, z: PollSetting)
    requires !IsFinal(rec) && !OverLimit(rec, z.cfg)
    ensures var es := PlanOf(rec, z).effects;
            var checked := z.cfg.check(PollState(rec, z.cfg, z.env));
            var first := if rec.None? then 1 else 0;
            && |es| == first + (if checked.Ok? then 2 else 1)
            && (rec.None? ==> es[0].Persist? && es[0].w == StepWrite(Start, None, None))
            && es[first] == EnterBody(AttemptOf(rec))
            && (checked.Ok? ==>
                  && es[first + 1].Persist? && es[first + 1].w.payload == Some(z.env.encode(checked.value))
                  && es[first + 1].w.action == if z.cfg.stop(checked.value, AttemptOf(rec)) then Succeed else Retry)
  {
  }
}
