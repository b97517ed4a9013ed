/**
 Recorded operations, the updates that change them, and what one call of a leaf
 operation (step, wait, wait-for-condition) does when it finds a given record.

 A call is described by a `Plan`: the effects it performs in order, and how it ends.
 A crash cuts a plan after any number of effects.
 */
module Operations {
  import opened Wrappers

  /** A serialisable user value. */
  type Value = string

  datatype Status = Ready | Started | Pending | Succeeded | Failed | Unknown

  datatype Kind = StepKind | WaitKind | ContextKind

  /** What the backend keeps about one operation; only the fields a replay reads. */
  datatype Record = Record(
    kind: Kind,
    status: Status,
    attempt: Option<nat>,
    result: Option<string>,
    error: Option<string>,
    replayChildren: bool)

  datatype Action = Start | Succeed | Fail | Retry

  datatype Write = Write(
    kind: Kind,
    action: Action,
    payload: Option<string>,
    error: Option<string>,
    replayChildren: bool)

  /** One operation call inside a context: its optional name and the context's counter. */
  datatype Entry = Entry(name: Option<string>, counter: nat)

  /** The address of an operation: the calls that lead to it from the root context. */
  type Path = seq<Entry>

  /** Why a batch operation cannot be replayed from its records. */
  datatype ReplayProblem = TooManyItems(limit: nat, actual: nat) | MissingChild(index: nat)

  /** Errors without their `source`. */
  datatype DurableError =
    | StepFailed(step: Path, attempts: nat, message: string)
    | ChildContextFailed(child: Path, message: string)
    | WaitConditionExceeded(attempts: nat)
    | BatchOperationFailed(name: string, message: string)
    | ReplayValidationFailed(problem: ReplayProblem)
    | InvalidConfiguration(name: string)
    | Internal(message: string)
    | UserError(message: string)

  type Outcome = Result<Value, DurableError>

  /** What a body gives, and whether a START sent ahead of it without waiting is stored when it is entered. */
  datatype BodyResult = BodyOk(v: Value, startStored: bool) | BodyErr(message: string, startStored: bool)

  /** The codec of user values and the display form of errors. */
  datatype Env = Env(
    encode: Value -> string,
    decode: string -> Option<Value>,
    show: DurableError -> string,
    interrupted: Path -> string)

  ghost predicate CodecRoundTrips(env: Env) {
    forall v: Value :: env.decode(env.encode(v)) == Some(v)
  }

  predicate Final(r: Record) {
    r.status == Succeeded || r.status == Failed
  }

  predicate IsFinal(r: Option<Record>) {
    r.Some? && Final(r.value)
  }

  /** The backend's reaction to an acknowledged update; a RETRY raises the attempt by one. */
  function ApplyWrite(prior: Option<Record>, w: Write): Record {
    var attempt := if prior.Some? then prior.value.attempt else None;
    var result := if prior.Some? then prior.value.result else None;
    match w.action
    case Start => Record(w.kind, Started, attempt, result, None, false)
    case Succeed => Record(w.kind, Succeeded, attempt, w.payload, None, w.replayChildren)
    case Fail => Record(w.kind, Failed, attempt, None, w.error, false)
    case Retry =>
      Record(w.kind, Pending, Some(attempt.GetOr(0) + 1),
             if w.payload.Some? then w.payload else result, w.error, false)
  }

  datatype Effect = Persist(w: Write) | EnterBody(attempt: nat)

  datatype Ending = Return(o: Outcome) | Suspend

  datatype Plan = Plan(effects: seq<Effect>, ending: Ending)

  function ApplyEffect(r: Option<Record>, e: Effect): Option<Record> {
    match e
    case Persist(w) => Some(ApplyWrite(r, w))
    case EnterBody(_) => r
  }

  /** The record after the effects of a plan have been performed in order. */
  function ApplyEffects(r: Option<Record>, es: seq<Effect>): (after: Option<Record>)
    ensures r.Some? ==> after.Some?
    decreases |es|
  {
    if es == [] then r
    else ApplyEffects(ApplyEffect(r, es[0]), es[1..])
  }

  /** The effects of a plan, at most three, applied one after the other. */
  lemma {:induction false} ApplyUnfolds(rec: Option<Record>, es: seq<Effect>, m: nat)
    requires m <= |es| <= 3
    ensures ApplyEffects(rec, es[..m])
         == if m == 0 then rec
            else if m == 1 then ApplyEffect(rec, es[0])
            else if m == 2 then ApplyEffect(ApplyEffect(rec, es[0]), es[1])
            else ApplyEffect(ApplyEffect(ApplyEffect(rec, es[0]), es[1]), es[2])
    decreases m
  {
    if m > 0 {
      assert es[..m][0] == es[0] && es[..m][1..] == es[1..][..m - 1];
      var r1 := ApplyEffect(rec, es[0]);
      if m > 1 {
        ApplyUnfolds(r1, es[1..], m - 1);
      }
    }
  }

  // ----- Steps -----

  datatype Semantics = AtLeastOncePerRetry | AtMostOncePerRetry

  /** `retry(message, attemptsMade)` is the strategy's decision. */
  datatype StepConfig = StepConfig(semantics: Semantics, retry: (string, nat) -> bool)

  function StepWrite(action: Action, payload: Option<string>, error: Option<string>): Write {
    Write(StepKind, action, payload, error, false)
  }

  /** The attempt a body would run as, given the record found at invocation start. */
  function AttemptOf(rec: Option<Record>): nat {
    (if rec.Some? then rec.value.attempt.GetOr(0) else 0) + 1
  }

  /** The value a recorded payload stands for. */
  function Recorded(rec: Record, env: Env, missing: string): Outcome {
    match rec.result
    case Some(text) =>
      (match env.decode(text)
       case Some(v) => Ok(v)
       case None => Err(Internal(missing)))
    case None => Err(Internal(missing))
  }

  /** Whether a call that finds `rec` goes on to run the body. */
  predicate RunsBody(rec: Option<Record>, semantics: Semantics) {
    || rec.None?
    || rec.value.status == Ready || rec.value.status == Unknown
    || (rec.value.status == Started && semantics == AtLeastOncePerRetry)
  }

  /** An at-most-once step whose record says Started: the body may have run, so it is not entered. */
  function InterruptedStep(rec: Option<Record>, cfg: StepConfig, path: Path, env: Env): Plan {
    var message := env.interrupted(path);
    if cfg.retry(message, AttemptOf(rec)) then
      Plan([Persist(StepWrite(Retry, None, Some(message)))], Suspend)
    else
      Plan([Persist(StepWrite(Fail, None, Some(message)))],
           Return(Err(StepFailed(path, AttemptOf(rec), message))))
  }

  /**
   The effects up to the body.  An at-most-once step waits for its START to be stored; an
   at-least-once step only sends it, so it may be stored while the body is running.
   */
  function BeginStep(rec: Option<Record>, semantics: Semantics, startStored: bool): seq<Effect> {
    var start, enter := Persist(StepWrite(Start, None, None)), EnterBody(AttemptOf(rec));
    var alreadyStarted := rec.Some? && (rec.value.status == Started || rec.value.status == Ready);
    if alreadyStarted then [enter]
    else if semantics == AtMostOncePerRetry || startStored then [start, enter]
    else [enter, start]
  }

  function StepExecution(rec: Option<Record>, cfg: StepConfig, path: Path, env: Env, body: BodyResult): Plan {
    var begin := BeginStep(rec, cfg.semantics, body.startStored);
    var attempt := AttemptOf(rec);
    match body
    case BodyOk(v, _) =>
      Plan(begin + [Persist(StepWrite(Succeed, Some(env.encode(v)), None))], Return(Ok(v)))
    case BodyErr(m, _) =>
      if cfg.retry(m, attempt) then
        Plan(begin + [Persist(StepWrite(Retry, None, Some(m)))], Suspend)
      else
        Plan(begin + [Persist(StepWrite(Fail, None, Some(m)))], Return(Err(StepFailed(path, attempt, m))))
  }

  function StepPlan(rec: Option<Record>, cfg: StepConfig, path: Path, env: Env, body: BodyResult): Plan {
    if rec.None? then StepExecution(rec, cfg, path, env, body)
    else
      match rec.value.status
      case Succeeded => Plan([], Return(Recorded(rec.value, env, "Missing step output in replay")))
      case Failed =>
        Plan([], Return(Err(StepFailed(path, AttemptOf(rec), rec.value.error.GetOr("Replayed failure")))))
      case Pending => Plan([], Suspend)
      case Started =>
        if cfg.semantics == AtMostOncePerRetry then InterruptedStep(rec, cfg, path, env)
        else StepExecution(rec, cfg, path, env, body)
      case _ => StepExecution(rec, cfg, path, env, body)
  }

  // ----- Waits -----

  const UNIT: Value := ""

  /** `zero` is whether the requested duration is zero. */
  function WaitPlan(rec: Option<Record>, zero: bool): Plan {
    if zero then Plan([], Return(Ok(UNIT)))
    else if rec.None? then Plan([Persist(Write(WaitKind, Start, None, None, false))], Suspend)
    else
      match rec.value.status
      case Succeeded => Plan([], Return(Ok(UNIT)))
      case Failed => Plan([], Return(Err(Internal("Wait failed in replay"))))
      case _ => Plan([], Suspend)
  }

  // ----- Waiting for a condition -----

  datatype PollConfig = PollConfig(
    check: Value -> Outcome,
    stop: (Value, nat) -> bool,
    maxAttempts: Option<nat>,
    initial: Value)

  /** The polling state found in the record, or the initial one. */
  function PollState(rec: Option<Record>, cfg: PollConfig, env: Env): Value {
    if rec.Some? && rec.value.result.Some? then env.decode(rec.value.result.value).GetOr(cfg.initial)
    else cfg.initial
  }

  function PollExecution(rec: Option<Record>, cfg: PollConfig, env: Env): Plan {
    var attempt := AttemptOf(rec);
    if cfg.maxAttempts.Some? && attempt > cfg.maxAttempts.value then
      var e := WaitConditionExceeded(attempt);
      Plan([Persist(StepWrite(Fail, None, Some(env.show(e))))], Return(Err(e)))
    else
      var start := if rec.Some? then [] else [Persist(StepWrite(Start, None, None))];
      match cfg.check(PollState(rec, cfg, env))
      case Err(e) => Plan(start + [EnterBody(attempt)], Return(Err(e)))
      case Ok(state) =>
        var payload := Some(env.encode(state));
        if cfg.stop(state, attempt) then
          Plan(start + [EnterBody(attempt), Persist(StepWrite(Succeed, payload, None))], Return(Ok(state)))
        else
          Plan(start + [EnterBody(attempt), Persist(StepWrite(Retry, payload, None))], Suspend)
  }

  function PollPlan(rec: Option<Record>, cfg: PollConfig, path: Path, env: Env): Plan {
    if rec.Some? && rec.value.status == Succeeded then
      Plan([], Return(Recorded(rec.value, env, "Missing wait-for-condition result in replay")))
    else if rec.Some? && rec.value.status == Failed then
      Plan([], Return(Err(StepFailed(path, rec.value.attempt.GetOr(1),
                                     rec.value.error.GetOr("Wait for condition failed")))))
    else PollExecution(rec, cfg, env)
  }
}
