/**
 What a step gives, over any number of invocations, each cut after any number of effects: the
 verdict on the last attempt that was decided, and so the very value its body gave.
 */
module StepOutcomes {
  import opened Wrappers
  import opened Operations
  import opened StepRuns

  /** The outcome of an invocation that finds `s` and is cut after `cut` effects. */
  function Returned(s: StepState, z: StepSetting, cut: nat, body: BodyResult): Option<Outcome> {
    var plan := PlanOf(s, z, body);
    if plan.ending.Return? && |plan.effects| <= cut then Some(plan.ending.o) else None
  }

  /** An attempt and what it came to: its body's result, or a failure for having been interrupted. */
  datatype Decision = Decision(body: BodyResult, attempt: nat)

  /** A first START, the body and the update that follows it; later attempts need no START. */
  function EffectsNeeded(rec: Option<Record>): nat {
    if rec.None? || rec.value.status == Unknown then 3 else 2
  }

  /** The attempt that an event decides: it runs the body to its end, or finds it interrupted. */
  function DecidedBy(s: StepState, z: StepSetting, ev: StepEvent): Option<Decision> {
    if !ev.Invoke? then None
    else if RunsBody(s.rec, z.cfg.semantics) then
      if ev.cut >= EffectsNeeded(s.rec) then Some(Decision(ev.body, AttemptOf(s.rec))) else None
    else if s.rec.value.status == Started && ev.cut >= 1 then
      Some(Decision(BodyErr(z.env.interrupted(z.path), true), AttemptOf(s.rec)))
    else None
  }

  /** The last attempt that was decided. */
  function LastDecision(h: seq<StepEvent>, z: StepSetting): Option<Decision> {
    if h == [] then None
    else
      var front, ev := h[..|h| - 1], h[|h| - 1];
      var d := DecidedBy(After(front, z), z, ev);
      if d.Some? then d else LastDecision(front, z)
  }

  /** What it means for the step: the body's value, a failure that is not retried, or nothing yet. */
  function Verdict(d: Option<Decision>, z: StepSetting): Option<Outcome> {
    match d
    case None => None
    case Some(Decision(BodyOk(v, _), _)) => Some(Ok(v))
    case Some(Decision(BodyErr(m, _), a)) =>
      if z.cfg.retry(m, a) then None else Some(Err(StepFailed(z.path, a, m)))
  }

  /** The record of a step with this last decision. */
  predicate RecordSays(rec: Option<Record>, d: Option<Decision>, z: StepSetting) {
    match Verdict(d, z)
    case None => !IsFinal(rec)
    case Some(Ok(v)) => rec.Some? && rec.value.status == Succeeded && rec.value.result == Some(z.env.encode(v))
    case Some(Err(_)) =>
      && rec.Some? && rec.value.status == Failed
      && rec.value.error == Some(d.value.body.message) && AttemptOf(rec) == d.value.attempt
  }

  function Later(d: Option<Decision>, e: Option<Decision>): Option<Decision> {
    if d.Some? then d else e
  }

  /** An invocation that runs the body but is cut before its end: nothing is decided. */
  lemma CutDecidesNothing(s: StepState, z: StepSetting, cut: nat, body: BodyResult)
    requires !IsFinal(s.rec) && RunsBody(s.rec, z.cfg.semantics) && cut < EffectsNeeded(s.rec)
    ensures !IsFinal(Next(s, z, Invoke(cut, body)).rec) && Returned(s, z, cut, body).None?
  {
    var es := PlanOf(s, z, body).effects;
    PlanHasShape(s, z, body);
    ApplyUnfolds(s.rec, es, Min(cut, |es|));
  }

  /** One that runs it to its end. */
  lemma EndIsDecided(s: StepState, z: StepSetting, cut: nat, body: BodyResult)
    requires RunsBody(s.rec, z.cfg.semantics) && cut >= EffectsNeeded(s.rec)
    ensures var d := Some(Decision(body, AttemptOf(s.rec)));
            && RecordSays(Next(s, z, Invoke(cut, body)).rec, d, z)
            && Returned(s, z, cut, body) == Verdict(d, z)
  {
    var es := PlanOf(s, z, body).effects;
    PlanHasShape(s, z, body);
    assert Min(cut, |es|) == |es| && es[..|es|] == es;
    ApplyUnfolds(s.rec, es, |es|);
  }

  lemma BodyIsDecided(s: StepState, z: StepSetting, cut: nat, body: BodyResult, last: Option<Decision>)
    requires RecordSays(s.rec, last, z) && RunsBody(s.rec, z.cfg.semantics)
    ensures var d := Later(DecidedBy(s, z, Invoke(cut, body)), last);
            && RecordSays(Next(s, z, Invoke(cut, body)).rec, d, z)
            && Returned(s, z, cut, body) == Verdict(d, z)
  {
    if cut < EffectsNeeded(s.rec) {
      CutDecidesNothing(s, z, cut, body);
    } else {
      EndIsDecided(s, z, cut, body);
    }
  }

  /** One that does not: it finds an outcome, an attempt to wait for, or an interrupted one. */
  lemma NoBodyIsDecided(s: StepState, z: StepSetting, cut: nat, body: BodyResult, last: Option<Decision>)
    requires CodecRoundTrips(z.env)
    requires RecordSays(s.rec, last, z) && !RunsBody(s.rec, z.cfg.semantics)
    ensures var d := Later(DecidedBy(s, z, Invoke(cut, body)), last);
            && RecordSays(Next(s, z, Invoke(cut, body)).rec, d, z)
            && Returned(s, z, cut, body) == Verdict(d, z)
  {
    var es := PlanOf(s, z, body).effects;
    ApplyUnfolds(s.rec, es, Min(cut, |es|));
  }

  lemma {:induction false} RecordSaysLast(h: seq<StepEvent>, z: StepSetting)
    requires CodecRoundTrips(z.env)
    ensures RecordSays(After(h, z).rec, LastDecision(h, z), z)
  {
    if h != [] {
      var front := h[..|h| - 1];
      RecordSaysLast(front, z);
      match h[|h| - 1]
      case MakeReady =>
      case Invoke(cut, body) =>
        if RunsBody(After(front, z).rec, z.cfg.semantics) {
          BodyIsDecided(After(front, z), z, cut, body, LastDecision(front, z));
        } else {
          NoBodyIsDecided(After(front, z), z, cut, body, LastDecision(front, z));
        }
    }
  }

  /**
   In every history, an invocation returns exactly the verdict on the last attempt decided by
   its end, this invocation included: the value that attempt's body gave, its failure if the
   strategy gives up on it, and nothing as long as there is no such attempt.
   */
  lemma ReturnsVerdictExactly(h: seq<StepEvent>, z: StepSetting, cut: nat, body: BodyResult)
    requires CodecRoundTrips(z.env)
    ensures Returned(After(h, z), z, cut, body) == Verdict(LastDecision(h + [Invoke(cut, body)], z), z)
  {
    var s, last := After(h, z), LastDecision(h, z);
    assert (h + [Invoke(cut, body)])[..|h|] == h;
    RecordSaysLast(h, z);
    if RunsBody(s.rec, z.cfg.semantics) {
      BodyIsDecided(s, z, cut, body, last);
    } else {
      NoBodyIsDecided(s, z, cut, body, last);
    }
  }

  /** A verdict is final: no later event decides anything. */
  lemma {:induction false} VerdictStays(h: seq<StepEvent>, more: seq<StepEvent>, z: StepSetting)
    requires CodecRoundTrips(z.env) && Verdict(LastDecision(h, z), z).Some?
    ensures LastDecision(h + more, z) == LastDecision(h, z)
    decreases |more|
  {
    if more == [] {
      assert h + more == h;
    } else {
      var front, last := more[..|more| - 1], more[|more| - 1];
      assert h + more == (h + front) + [last] && ((h + front) + [last])[..|h + front|] == h + front;
      VerdictStays(h, front, z);
      RecordSaysLast(h + front, z);
    }
  }

  /** An invocation that runs the body to its end returns what the body gives, and so does every later one. */
  lemma BodyValueIsReturned(
      h: seq<StepEvent>, more: seq<StepEvent>, z: StepSetting, cut: nat, v: Value, stored: bool, cut': nat, body': BodyResult)
    requires CodecRoundTrips(z.env) && RunsBody(After(h, z).rec, z.cfg.semantics) && cut >= 3
    ensures Returned(After(h, z), z, cut, BodyOk(v, stored)) == Some(Ok(v))
    ensures Returned(After(h + [Invoke(cut, BodyOk(v, stored))] + more, z), z, cut', body') == Some(Ok(v))
  {
    var run := h + [Invoke(cut, BodyOk(v, stored))];
    assert run[..|h|] == h;
    ReturnsVerdictExactly(h, z, cut, BodyOk(v, stored));
    ReturnsVerdictExactly(run + more, z, cut', body');
    VerdictStays(run, more + [Invoke(cut', body')], z);
    assert run + (more + [Invoke(cut', body')]) == (run + more) + [Invoke(cut', body')];
  }

  /** A step that returns a value returns the one that the last body run to its end gave. */
  lemma ReturnedValueIsGiven(h: seq<StepEvent>, z: StepSetting, cut: nat, body: BodyResult, v: Value)
    requires CodecRoundTrips(z.env) && Returned(After(h, z), z, cut, body) == Some(Ok(v))
    ensures var d := LastDecision(h + [Invoke(cut, body)], z);
            d.Some? && d.value.body.BodyOk? && d.value.body.v == v
  {
    ReturnsVerdictExactly(h, z, cut, body);
  }

  // ----- Records, whoever wrote them -----

  /** A step that finds a value recorded gives it if it can be decoded, and an error otherwise; it does nothing. */
  lemma SucceededReads(rec: Record, cfg: StepConfig, path: Path, env: Env, body: BodyResult)
    requires rec.status == Succeeded
    ensures var plan := StepPlan(Some(rec), cfg, path, env, body);
            && plan.effects == [] && plan.ending.Return?
            && (forall v :: plan.ending.o == Ok(v) <==> rec.result.Some? && env.decode(rec.result.value) == Some(v))
            && (plan.ending.o.Err? ==> plan.ending.o == Err(Internal("Missing step output in replay")))
  {
  }

  /** One that finds a failure gives its text, and the attempt recorded with it. */
  lemma FailedReads(rec: Record, cfg: StepConfig, path: Path, env: Env, body: BodyResult, m: string)
    requires rec.status == Failed && (rec.error == Some(m) || (rec.error.None? && m == "Replayed failure"))
    ensures StepPlan(Some(rec), cfg, path, env, body)
         == Plan([], Return(Err(StepFailed(path, rec.attempt.GetOr(0) + 1, m))))
  {
  }

  /** A retry that is not due yet suspends without effect; an unknown record is like none, but has its START sent again. */
  lemma OpenReads(rec: Record, cfg: StepConfig, path: Path, env: Env, body: BodyResult)
    ensures rec.status == Pending ==> StepPlan(Some(rec), cfg, path, env, body) == Plan([], Suspend)
    ensures rec.status == Unknown ==>
              && RunsBody(Some(rec), cfg.semantics)
              && |StepPlan(Some(rec), cfg, path, env, body).effects| == 3
    ensures rec.status == Ready ==> |StepPlan(Some(rec), cfg, path, env, body).effects| == 2
  {
  }
}
