/**
 One step over any number of invocations, each cut after any number of effects: how often
 its body is entered, and how often it is retried.
 */
module StepRuns {
  import opened Wrappers
  import opened Operations
  import Retry

  /** An invocation that reaches the step and is cut after `cut` effects, or the service making a retry ready. */
  datatype StepEvent = Invoke(cut: nat, body: BodyResult) | MakeReady

  /** The record of the step and everything performed for it so far. */
  datatype StepState = StepState(rec: Option<Record>, log: seq<Effect>)

  datatype StepSetting = StepSetting(cfg: StepConfig, path: Path, env: Env)

  function PlanOf(s: StepState, z: StepSetting, body: BodyResult): Plan {
    StepPlan(s.rec, z.cfg, z.path, z.env, body)
  }

  function Performed(s: StepState, z: StepSetting, cut: nat, body: BodyResult): seq<Effect> {
    var es := PlanOf(s, z, body).effects;
    es[..Min(cut, |es|)]
  }

  function Next(s: StepState, z: StepSetting, ev: StepEvent): StepState {
    match ev
    case Invoke(cut, body) =>
      var es := Performed(s, z, cut, body);
      StepState(ApplyEffects(s.rec, es), s.log + es)
    case MakeReady =>
      if s.rec.Some? && s.rec.value.status == Pending then
        s.(rec := Some(s.rec.value.(status := Ready)))
      else s
  }

  function After(h: seq<StepEvent>, z: StepSetting): StepState {
    if h == [] then StepState(None, [])
    else Next(After(h[..|h| - 1], z), z, h[|h| - 1])
  }

  /** How often the body was entered as attempt `n`. */
  function Entries(log: seq<Effect>, n: nat): nat {
    if log == [] then 0
    else Entries(log[..|log| - 1], n) + if log[|log| - 1] == EnterBody(n) then 1 else 0
  }

  /** All body entries, whatever the attempt. */
  function AllEntries(log: seq<Effect>): nat {
    if log == [] then 0
    else AllEntries(log[..|log| - 1]) + if log[|log| - 1].EnterBody? then 1 else 0
  }

  lemma {:induction false} AllEntriesAppend(log: seq<Effect>, es: seq<Effect>)
    requires |es| <= 3
    ensures AllEntries(log + es) == AllEntries(log)
                                  + (if |es| > 0 && es[0].EnterBody? then 1 else 0)
                                  + (if |es| > 1 && es[1].EnterBody? then 1 else 0)
                                  + (if |es| > 2 && es[2].EnterBody? then 1 else 0)
  {
    if es == [] {
      assert log + es == log;
    } else {
      assert (log + es)[..|log + es| - 1] == log + es[..|es| - 1];
      AllEntriesAppend(log, es[..|es| - 1]);
    }
  }

  predicate IsRetry(e: Effect) {
    e.Persist? && e.w.action == Retry
  }

  /** How many RETRY updates were recorded. */
  function Retries(log: seq<Effect>): nat {
    if log == [] then 0
    else Retries(log[..|log| - 1]) + if IsRetry(log[|log| - 1]) then 1 else 0
  }

  lemma {:induction false} CountsAppend(log: seq<Effect>, es: seq<Effect>, n: nat)
    ensures Entries(log + es, n) == Entries(log, n) + Entries(es, n)
    ensures Retries(log + es) == Retries(log) + Retries(es)
  {
    if es == [] {
      assert log + es == log;
    } else {
      var front := es[..|es| - 1];
      assert (log + es)[..|log + es| - 1] == log + front;
      CountsAppend(log, front, n);
    }
  }

  /** The counts in a cut plan of at most three effects. */
  lemma CountsOfFew(es: seq<Effect>, n: nat)
    requires |es| <= 3
    ensures Entries(es, n) == (if |es| > 0 && es[0] == EnterBody(n) then 1 else 0)
                            + (if |es| > 1 && es[1] == EnterBody(n) then 1 else 0)
                            + (if |es| > 2 && es[2] == EnterBody(n) then 1 else 0)
    ensures Retries(es) == (if |es| > 0 && IsRetry(es[0]) then 1 else 0)
                         + (if |es| > 1 && IsRetry(es[1]) then 1 else 0)
                         + (if |es| > 2 && IsRetry(es[2]) then 1 else 0)
  {
    if |es| > 0 {
      CountsOfFew(es[..|es| - 1], n);
    }
  }

  /** An invocation that finds attempt `n` Ready and is cut right after entering the body. */
  predicate CutsAttempt(rec: Option<Record>, cut: nat, n: nat) {
    cut == 1 && AttemptOf(rec) == n && rec.Some? && rec.value.status == Ready
  }

  /** Invocations that entered attempt `n` on a Ready record and were cut before recording its end. */
  function CutsWhileReady(h: seq<StepEvent>, z: StepSetting, n: nat): nat {
    if h == [] then 0
    else
      var s := After(h[..|h| - 1], z);
      var ev := h[|h| - 1];
      CutsWhileReady(h[..|h| - 1], z, n)
        + if ev.Invoke? && CutsAttempt(s.rec, ev.cut, n) then 1 else 0
  }

  /** The record shows that attempt `n` has begun. */
  predicate Begun(rec: Option<Record>, n: nat) {
    && rec.Some?
    && (n < AttemptOf(rec)
        || (n == AttemptOf(rec)
            && (rec.value.status == Started || rec.value.status == Succeeded || rec.value.status == Failed)))
  }

  /** Records an at-most-once step can have: only a first attempt is Started, only later ones wait. */
  predicate StepRecordOk(rec: Option<Record>) {
    rec.Some? ==>
      && rec.value.status != Unknown
      && (rec.value.status == Started ==> AttemptOf(rec) == 1)
      && (rec.value.status == Pending || rec.value.status == Ready ==> AttemptOf(rec) >= 2)
  }

  predicate Ends(e: Effect, action: Action) {
    e.Persist? && e.w.action == action
  }

  predicate IsEnd(e: Effect) {
    Ends(e, Succeed) || Ends(e, Fail) || Ends(e, Retry)
  }

  /** The forms the effects of a step call can have. */
  predicate Shape(rec: Option<Record>, semantics: Semantics, es: seq<Effect>) {
    if !RunsBody(rec, semantics) then
      es == [] || (rec.value.status == Started && |es| == 1 && IsEnd(es[0]) && !Ends(es[0], Succeed))
    else if rec.Some? && rec.value.status != Unknown then
      |es| == 2 && es[0] == EnterBody(AttemptOf(rec)) && IsEnd(es[1])
    else
      && |es| == 3 && IsEnd(es[2])
      && (|| (Ends(es[0], Start) && es[1] == EnterBody(AttemptOf(rec)))
          || (semantics == AtLeastOncePerRetry && es[0] == EnterBody(AttemptOf(rec)) && Ends(es[1], Start)))
  }

  /** A retry is only recorded when the strategy asks for one after this attempt. */
  lemma PlanHasShape(s: StepState, z: StepSetting, body: BodyResult)
    ensures Shape(s.rec, z.cfg.semantics, PlanOf(s, z, body).effects)
    ensures forall e :: e in PlanOf(s, z, body).effects && IsRetry(e) ==>
              exists m: string :: z.cfg.retry(m, AttemptOf(s.rec))
  {
  }

  /** The effects of one invocation of an at-most-once step, cut after `m` of them. */
  lemma OneInvocation(rec: Option<Record>, es: seq<Effect>, m: nat, n: nat)
    requires Shape(rec, AtMostOncePerRetry, es) && m <= |es| && StepRecordOk(rec)
    ensures var after := ApplyEffects(rec, es[..m]);
            var entries := Entries(es[..m], n);
            && StepRecordOk(after)
            && (Begun(rec, n) ==> Begun(after, n) && entries == 0)
            && entries <= 1
            && (entries == 1 ==> Begun(after, n) || CutsAttempt(rec, m, n))
            && (CutsAttempt(rec, m, n) ==> entries == 1 && !Begun(after, n))
            && (n >= 2 && !Begun(rec, n) && Begun(after, n) ==> entries == 1)
  {
    ApplyUnfolds(rec, es, m);
    CountsOfFew(es[..m], n);
  }

  /**
   At most once.  Under `AtMostOncePerRetry`, and with cuts anywhere, the body is entered as
   attempt `n` once, plus once for every invocation that was cut while the record said Ready;
   from the second attempt on this count is exact.
   */
  lemma {:induction false} EntriesAreBounded(h: seq<StepEvent>, z: StepSetting, n: nat)
    requires z.cfg.semantics == AtMostOncePerRetry
    ensures StepRecordOk(After(h, z).rec)
    ensures var bound := CutsWhileReady(h, z, n) + if Begun(After(h, z).rec, n) then 1 else 0;
            && Entries(After(h, z).log, n) <= bound
            && (n >= 2 ==> Entries(After(h, z).log, n) == bound)
  {
    if h != [] {
      var before := h[..|h| - 1];
      var s := After(before, z);
      EntriesAreBounded(before, z, n);
      match h[|h| - 1]
      case MakeReady =>
      case Invoke(cut, body) =>
        PlanHasShape(s, z, body);
        var es := PlanOf(s, z, body).effects;
        OneInvocation(s.rec, es, Min(cut, |es|), n);
        CountsAppend(s.log, Performed(s, z, cut, body), n);
    }
  }

  lemma {:induction false} FirstAttemptIsNeverReady(h: seq<StepEvent>, z: StepSetting)
    requires z.cfg.semantics == AtMostOncePerRetry
    ensures CutsWhileReady(h, z, 1) == 0
  {
    if h != [] {
      FirstAttemptIsNeverReady(h[..|h| - 1], z);
      EntriesAreBounded(h[..|h| - 1], z, 1);
    }
  }

  /** The first attempt runs at most once, whatever happens. */
  lemma FirstAttemptRunsAtMostOnce(h: seq<StepEvent>, z: StepSetting)
    requires z.cfg.semantics == AtMostOncePerRetry
    ensures Entries(After(h, z).log, 1) <= 1
  {
    EntriesAreBounded(h, z, 1);
    FirstAttemptIsNeverReady(h, z);
  }

  /** Attempt `a` has been started and is over, or is the one the record says Started. */
  predicate Past(rec: Option<Record>, a: nat) {
    rec.Some? && (AttemptOf(rec) > a || Final(rec.value) || (rec.value.status == Started && AttemptOf(rec) == a))
  }

  lemma PastStays(rec: Option<Record>, es: seq<Effect>, a: nat, m: nat)
    requires Past(rec, a) && Shape(rec, AtMostOncePerRetry, es) && m <= |es|
    ensures Past(ApplyEffects(rec, es[..m]), a) && EnterBody(a) !in es
  {
    ApplyUnfolds(rec, es, m);
  }

  lemma PastInvocation(rec: Option<Record>, z: StepSetting, body: BodyResult, a: nat, m: nat)
    requires z.cfg.semantics == AtMostOncePerRetry && Past(rec, a)
    requires var es := StepPlan(rec, z.cfg, z.path, z.env, body).effects; m <= |es|
    ensures var es := StepPlan(rec, z.cfg, z.path, z.env, body).effects;
            Past(ApplyEffects(rec, es[..m]), a) && EnterBody(a) !in es
  {
    PlanHasShape(StepState(rec, []), z, body);
    PastStays(rec, StepPlan(rec, z.cfg, z.path, z.env, body).effects, a, m);
  }

  lemma {:induction false} EntriesAppendOther(log: seq<Effect>, es: seq<Effect>, n: nat)
    requires EnterBody(n) !in es
    ensures Entries(log + es, n) == Entries(log, n)
  {
    if es == [] {
      assert log + es == log;
    } else {
      assert (log + es)[..|log + es| - 1] == log + es[..|es| - 1];
      EntriesAppendOther(log, es[..|es| - 1], n);
    }
  }

  lemma PastEvent(s: StepState, z: StepSetting, ev: StepEvent, a: nat)
    requires z.cfg.semantics == AtMostOncePerRetry && Past(s.rec, a)
    ensures Entries(Next(s, z, ev).log, a) == Entries(s.log, a) && Past(Next(s, z, ev).rec, a)
  {
    if ev.Invoke? {
      var es := PlanOf(s, z, ev.body).effects;
      PastInvocation(s.rec, z, ev.body, a, Min(ev.cut, |es|));
      EntriesAppendOther(s.log, Performed(s, z, ev.cut, ev.body), a);
    }
  }

  /**
   An attempt whose record says Started is never entered again: in whatever history follows, no
   invocation enters the body as that attempt.
   */
  lemma {:induction false} StartedIsNotReentered(h: seq<StepEvent>, more: seq<StepEvent>, z: StepSetting, a: nat)
    requires z.cfg.semantics == AtMostOncePerRetry
    requires After(h, z).rec.Some? && After(h, z).rec.value.status == Started && AttemptOf(After(h, z).rec) == a
    ensures Entries(After(h + more, z).log, a) == Entries(After(h, z).log, a)
    ensures Past(After(h + more, z).rec, a)
    decreases |more|
  {
    if more == [] {
      assert h + more == h;
    } else {
      var front, last := more[..|more| - 1], more[|more| - 1];
      assert h + more == (h + front) + [last];
      StartedIsNotReentered(h, front, z, a);
      PastEvent(After(h + front, z), z, last, a);
      assert ((h + front) + [last])[..|h + front|] == h + front;
    }
  }

  /** One body entry, and at most two writes. */
  predicate EntersOnce(es: seq<Effect>, a: nat) {
    || (|es| == 2 && es[0] == EnterBody(a) && es[1].Persist?)
    || (|es| == 3 && es[0].Persist? && es[1] == EnterBody(a) && es[2].Persist?)
    || (|es| == 3 && es[0] == EnterBody(a) && es[1].Persist? && es[2].Persist?)
  }

  /** The effects of a call whose body fails, and the record they leave. */
  lemma FailingRecord(s: StepState, z: StepSetting, m: string, stored: bool)
    requires s.rec.None? || s.rec.value.status == Ready
    ensures var es := PlanOf(s, z, BodyErr(m, stored)).effects;
            var after := ApplyEffects(s.rec, es);
            && EntersOnce(es, AttemptOf(s.rec))
            && after.Some?
            && (if z.cfg.retry(m, AttemptOf(s.rec)) then
                  after.value.status == Pending && AttemptOf(after) == AttemptOf(s.rec) + 1
                else
                  after.value.status == Failed && AttemptOf(after) == AttemptOf(s.rec) && after.value.error == Some(m))
  {
    var es := PlanOf(s, z, BodyErr(m, stored)).effects;
    assert es[..|es|] == es;
    ApplyUnfolds(s.rec, es, |es|);
  }

  lemma FailingCounts(log: seq<Effect>, es: seq<Effect>, a: nat, n: nat)
    requires EntersOnce(es, a)
    ensures Entries(log + es, n) == Entries(log, n) + (if n == a then 1 else 0)
    ensures AllEntries(log + es) == AllEntries(log) + 1
  {
    CountsOfFew(es, n);
    CountsAppend(log, es, n);
    AllEntriesAppend(log, es);
  }

  /** One uncut invocation whose body fails. */
  lemma FailingRound(s: StepState, z: StepSetting, m: string, stored: bool, n: nat)
    requires s.rec.None? || s.rec.value.status == Ready
    ensures var t := Next(s, z, Invoke(3, BodyErr(m, stored)));
            && t.rec.Some?
            && (if z.cfg.retry(m, AttemptOf(s.rec)) then
                  t.rec.value.status == Pending && AttemptOf(t.rec) == AttemptOf(s.rec) + 1
                else
                  t.rec.value.status == Failed && AttemptOf(t.rec) == AttemptOf(s.rec) && t.rec.value.error == Some(m))
            && Entries(t.log, n) == Entries(s.log, n) + (if n == AttemptOf(s.rec) then 1 else 0)
            && AllEntries(t.log) == AllEntries(s.log) + 1
  {
    var es := PlanOf(s, z, BodyErr(m, stored)).effects;
    assert es[..|es|] == es;
    FailingRecord(s, z, m, stored);
    FailingCounts(s.log, es, AttemptOf(s.rec), n);
  }

  lemma FailedOnceThenReady(z: StepSetting)
    requires z.cfg.semantics == AtMostOncePerRetry && z.cfg.retry("failed", 1)
    ensures var s := After([Invoke(3, BodyErr("failed", true)), MakeReady], z);
            s.rec.Some? && s.rec.value.status == Ready && AttemptOf(s.rec) == 2 && Entries(s.log, 2) == 0
  {
    var h := [Invoke(3, BodyErr("failed", true)), MakeReady];
    var s0 := StepState(None, []);
    assert h[..1][..0] == [] && After([], z) == s0;
    assert After(h[..1], z) == Next(s0, z, h[0]);
    FailingRound(s0, z, "failed", true, 2);
  }

  lemma {:induction false} CutsAreCounted(h: seq<StepEvent>, z: StepSetting)
    requires |h| >= 2 && z.cfg.semantics == AtMostOncePerRetry
    requires var s := After(h[..|h| - 2], z);
             && s.rec.Some? && s.rec.value.status == Ready && AttemptOf(s.rec) == 2
             && Entries(s.log, 2) == 0
    requires h[|h| - 2] == h[|h| - 1] == Invoke(1, BodyOk("", true))
    ensures Entries(After(h, z).log, 2) == 2
  {
    var h2, h3 := h[..|h| - 2], h[..|h| - 1];
    assert h3[..|h3| - 1] == h2;
    var s2, s3 := After(h2, z), After(h3, z);
    assert Performed(s2, z, 1, BodyOk("", true)) == [EnterBody(2)];
    CountsOfFew([EnterBody(2)], 2);
    CountsAppend(s2.log, [EnterBody(2)], 2);
    ApplyUnfolds(s2.rec, PlanOf(s2, z, BodyOk("", true)).effects, 1);
    assert Performed(s3, z, 1, BodyOk("", true)) == [EnterBody(2)];
    CountsAppend(s3.log, [EnterBody(2)], 2);
  }

  /** Two invocations cut while attempt 2 was Ready enter it twice. */
  lemma ReadyAttemptCanRunTwice(z: StepSetting)
    requires z.cfg.semantics == AtMostOncePerRetry && z.cfg.retry("failed", 1)
    ensures var h := [Invoke(3, BodyErr("failed", true)), MakeReady, Invoke(1, BodyOk("", true)), Invoke(1, BodyOk("", true))];
            Entries(After(h, z).log, 2) == 2
  {
    var h := [Invoke(3, BodyErr("failed", true)), MakeReady, Invoke(1, BodyOk("", true)), Invoke(1, BodyOk("", true))];
    FailedOnceThenReady(z);
    assert h[..2] == [Invoke(3, BodyErr("failed", true)), MakeReady];
    CutsAreCounted(h, z);
  }

  // ----- Bounded retries -----

  ghost predicate RetriesBelow(cfg: StepConfig, max: nat) {
    forall m: string, a: nat :: cfg.retry(m, a) ==> a < max
  }

  /** Every strategy of the SDK is bounded by its attempt limit. */
  lemma StrategiesAreBounded(strategy: Retry.Strategy, semantics: Semantics)
    ensures var cfg := StepConfig(semantics, (m: string, a: nat) => Retry.ShouldRetry(strategy, m, a));
            RetriesBelow(cfg, Retry.MaxAttempts(strategy))
  {
  }

  lemma RetriesInOneInvocation(rec: Option<Record>, semantics: Semantics, es: seq<Effect>, m: nat)
    requires Shape(rec, semantics, es) && m <= |es|
    ensures AttemptOf(ApplyEffects(rec, es[..m])) == AttemptOf(rec) + Retries(es[..m])
    ensures Retries(es[..m]) > 0 ==> Retries(es[..m]) == 1 && exists e :: e in es && IsRetry(e)
  {
    ApplyUnfolds(rec, es, m);
    CountsOfFew(es[..m], 0);
  }

  /**
   Over any run with any cuts, from failed bodies and from interrupted attempts together, a
   strategy limited to `max` attempts has at most `max - 1` retries recorded.
   */
  lemma {:induction false} RetriesAreBounded(h: seq<StepEvent>, z: StepSetting, max: nat)
    requires RetriesBelow(z.cfg, max)
    ensures AttemptOf(After(h, z).rec) == Retries(After(h, z).log) + 1
    ensures Retries(After(h, z).log) <= Max(0, max - 1)
  {
    if h != [] {
      var before := h[..|h| - 1];
      var s := After(before, z);
      RetriesAreBounded(before, z, max);
      match h[|h| - 1]
      case MakeReady =>
      case Invoke(cut, body) =>
        PlanHasShape(s, z, body);
        var es := PlanOf(s, z, body).effects;
        RetriesInOneInvocation(s.rec, z.cfg.semantics, es, Min(cut, |es|));
        CountsAppend(s.log, Performed(s, z, cut, body), 0);
    }
  }

  // ----- A body that always fails -----

  function Round(s: StepState, z: StepSetting, m: string, stored: bool): StepState {
    Next(Next(s, z, Invoke(3, BodyErr(m, stored))), z, MakeReady)
  }

  /**
   `rounds` uncut invocations whose body fails, each followed by the service making the step
   ready; `stored` says of each whether its START is stored ahead of the body.
   */
  function FailingRun(z: StepSetting, m: string, stored: nat -> bool, rounds: nat): StepState {
    if rounds == 0 then StepState(None, [])
    else Round(FailingRun(z, m, stored, rounds - 1), z, m, stored(rounds))
  }

  lemma OneRound(s: StepState, z: StepSetting, m: string, stored: bool)
    requires s.rec.None? || s.rec.value.status == Ready || IsFinal(s.rec)
    ensures var t := Round(s, z, m, stored);
            if IsFinal(s.rec) then t == s
            else
              && t.rec.Some?
              && AllEntries(t.log) == AllEntries(s.log) + 1
              && (if z.cfg.retry(m, AttemptOf(s.rec)) then
                    t.rec.value.status == Ready && AttemptOf(t.rec) == AttemptOf(s.rec) + 1
                  else
                    t.rec.value.status == Failed && AttemptOf(t.rec) == AttemptOf(s.rec)
                    && t.rec.value.error == Some(m))
  {
    if IsFinal(s.rec) {
      assert s.log + [] == s.log;
    } else {
      FailingRound(s, z, m, stored, 0);
    }
  }

  /** The strategy retries this failure exactly while fewer than `max` attempts have been made. */
  ghost predicate RetriesUntil(cfg: StepConfig, m: string, max: nat) {
    forall a: nat :: cfg.retry(m, a) <==> a < max
  }

  /** The step after `rounds` failing rounds: waiting for the next attempt, or failed for good. */
  predicate AfterRounds(s: StepState, m: string, max: nat, rounds: nat) {
    var last := Max(1, max);
    && AllEntries(s.log) == Min(rounds, last)
    && (rounds == 0 ==> s.rec == None)
    && (0 < rounds < last ==> s.rec.Some? && s.rec.value.status == Ready && AttemptOf(s.rec) == rounds + 1)
    && (rounds >= last ==>
          s.rec.Some? && s.rec.value.status == Failed && AttemptOf(s.rec) == last && s.rec.value.error == Some(m))
  }

  lemma OneMoreRound(s: StepState, z: StepSetting, m: string, stored: bool, max: nat, rounds: nat)
    requires RetriesUntil(z.cfg, m, max) && AfterRounds(s, m, max, rounds)
    ensures AfterRounds(Round(s, z, m, stored), m, max, rounds + 1)
  {
    OneRound(s, z, m, stored);
  }

  lemma {:induction false} FailingRounds(z: StepSetting, m: string, stored: nat -> bool, max: nat, rounds: nat)
    requires RetriesUntil(z.cfg, m, max)
    ensures AfterRounds(FailingRun(z, m, stored, rounds), m, max, rounds)
  {
    if rounds > 0 {
      FailingRounds(z, m, stored, max, rounds - 1);
      OneMoreRound(FailingRun(z, m, stored, rounds - 1), z, m, stored(rounds), max, rounds - 1);
    }
  }

  /** A body that always fails ends the step as Failed after exactly `max(1, max)` entries. */
  lemma AlwaysFailingBodyRuns(z: StepSetting, m: string, stored: nat -> bool, max: nat, rounds: nat)
    requires RetriesUntil(z.cfg, m, max)
    ensures var s := FailingRun(z, m, stored, rounds);
            && (rounds >= Max(1, max) <==> IsFinal(s.rec))
            && (IsFinal(s.rec) ==>
                  && AllEntries(s.log) == Max(1, max)
                  && StepPlan(s.rec, z.cfg, z.path, z.env, BodyErr(m, true)).ending
                     == Return(Err(StepFailed(z.path, Max(1, max), m))))
  {
    FailingRounds(z, m, stored, max, rounds);
  }

  /** How many attempts a strategy allows a body that always fails with `m`. */
  function AttemptsAllowed(strategy: Retry.Strategy, m: string): nat {
    match strategy
    case Exponential(b, retryable) => if retryable(m) then b.maxAttempts else 0
    case Fixed(max) => max
    case Constant(max, _) => max
    case Never => 0
  }

  /** Under each strategy of the SDK, such a step fails for good with the last attempt allowed, and runs at least once. */
  lemma StrategyRuns(
      strategy: Retry.Strategy, semantics: Semantics, path: Path, env: Env, m: string, stored: nat -> bool, rounds: nat)
    ensures var z := StepSetting(
              StepConfig(semantics, (m: string, a: nat) => Retry.ShouldRetry(strategy, m, a)), path, env);
            var s := FailingRun(z, m, stored, rounds);
            var last := Max(1, AttemptsAllowed(strategy, m));
            && (rounds >= last <==> IsFinal(s.rec))
            && (IsFinal(s.rec) ==>
                  && AllEntries(s.log) == last
                  && StepPlan(s.rec, z.cfg, path, env, BodyErr(m, true)).ending == Return(Err(StepFailed(path, last, m))))
  {
    var z := StepSetting(StepConfig(semantics, (m: string, a: nat) => Retry.ShouldRetry(strategy, m, a)), path, env);
    forall a: nat
      ensures z.cfg.retry(m, a) <==> a < AttemptsAllowed(strategy, m)
    {
    }
    AlwaysFailingBodyRuns(z, m, stored, AttemptsAllowed(strategy, m), rounds);
  }
}
