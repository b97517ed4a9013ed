/**
 Handlers, invocations and the claim that interruption cannot be observed.

 A handler is a deterministic program: a well-founded tree whose continuation is a total
 function of the outcome of the operation it asked for.  An invocation runs a handler from
 the start against the records found when it began (`snap`) and writes to the live store;
 it is cut after an arbitrary number of effects.
 */
module ReplayEngine {
  import opened Wrappers
  import opened Operations
  import PollRuns

  datatype Leaf =
    | StepLeaf(cfg: StepConfig)
    | WaitLeaf(zero: bool)
    | PollLeaf(poll: PollConfig)

  datatype Prog =
    | Finish(r: Outcome)
    | Call(name: Option<string>, leaf: Leaf, k: imap<Outcome, Prog>)
    | Nested(name: Option<string>, body: Prog, k: imap<Outcome, Prog>)

  /** A poll has no attempt limit, or its checks stop or fail before they reach it. */
  ghost predicate KeepsLimit(leaf: Leaf) {
    leaf.PollLeaf? && leaf.poll.maxAttempts.Some? ==> !PollRuns.Reaches(leaf.poll, leaf.poll.maxAttempts.value)
  }

  /** Every continuation is defined on every outcome. */
  ghost predicate Total(p: Prog) {
    match p
    case Finish(_) => true
    case Call(_, _, k) => forall o: Outcome :: o in k && Total(k[o])
    case Nested(_, body, k) => Total(body) && forall o: Outcome :: o in k && Total(k[o])
  }

  /** No poll exceeds its limit. */
  ghost predicate KeepsLimits(p: Prog)
    requires Total(p)
  {
    match p
    case Finish(_) => true
    case Call(_, leaf, k) => KeepsLimit(leaf) && forall o: Outcome :: KeepsLimits(k[o])
    case Nested(_, body, k) => KeepsLimits(body) && forall o: Outcome :: KeepsLimits(k[o])
  }

  type Store = map<Path, Record>

  function Get(s: Store, key: Path): Option<Record> {
    if key in s then Some(s[key]) else None
  }

  function Put(s: Store, key: Path, r: Option<Record>): Store {
    if r.Some? then s[key := r.value] else s
  }

  // ----- Leaf operations -----

  function LeafPlan(leaf: Leaf, rec: Option<Record>, path: Path, env: Env, body: BodyResult): Plan {
    match leaf
    case StepLeaf(cfg) => StepPlan(rec, cfg, path, env, body)
    case WaitLeaf(zero) => WaitPlan(rec, zero)
    case PollLeaf(poll) => PollPlan(rec, poll, path, env)
  }

  /**
   An open poll whose next check fails.  Nothing records the failure: each invocation that comes
   here makes the check again, from the same state.
   */
  predicate FailsAgain(leaf: Leaf, rec: Option<Record>, env: Env) {
    && leaf.PollLeaf? && rec.Some? && !IsFinal(rec) && rec.value.kind == StepKind
    && !PollRuns.OverLimit(rec, leaf.poll)
    && leaf.poll.check(PollState(rec, leaf.poll, env)).Err?
  }

  /** The outcome that the records alone determine, if they determine one. */
  function LeafOutcome(leaf: Leaf, rec: Option<Record>, path: Path, env: Env): Option<Outcome> {
    var plan := LeafPlan(leaf, rec, path, env, BodyErr("", true));
    if plan.ending.Return? && (leaf == WaitLeaf(true) || IsFinal(rec) || FailsAgain(leaf, rec, env)) then
      Some(plan.ending.o)
    else None
  }

  /** How many checks are made to find that outcome again. */
  function LeafCost(leaf: Leaf, rec: Option<Record>, env: Env): nat {
    if FailsAgain(leaf, rec, env) then 1 else 0
  }

  /**
   A recorded outcome is returned without any effect, whatever the body would do; the outcome of
   a failing check by making the check again.
   */
  lemma SettledLeafHasNoEffects(leaf: Leaf, rec: Option<Record>, path: Path, env: Env, body: BodyResult)
    requires leaf == WaitLeaf(true) || IsFinal(rec) || FailsAgain(leaf, rec, env)
    ensures LeafOutcome(leaf, rec, path, env).Some?
    ensures var again := if FailsAgain(leaf, rec, env) then [EnterBody(AttemptOf(rec))] else [];
            LeafPlan(leaf, rec, path, env, body) == Plan(again, Return(LeafOutcome(leaf, rec, path, env).value))
  {
  }

  /** The record is one of this kind of operation; that of a poll says how far it has come. */
  ghost predicate LeafOk(leaf: Leaf, rec: Option<Record>, path: Path, env: Env) {
    && (rec.Some? ==> rec.value.kind == if leaf.WaitLeaf? then WaitKind else StepKind)
    && (leaf.PollLeaf? ==> PollRuns.Consistent(rec, PollRuns.PollSetting(leaf.poll, path, env)))
  }

  /** What is promised of a plan cut after `m` effects. */
  ghost predicate CutIsFaithful(leaf: Leaf, rec: Option<Record>, path: Path, env: Env, plan: Plan, m: nat)
    requires m <= |plan.effects|
  {
    var after := ApplyEffects(rec, plan.effects[..m]);
    && (m < |plan.effects| || plan.ending.Suspend? ==> !IsFinal(after) && LeafOk(leaf, after, path, env))
    && (m == |plan.effects| && plan.ending.Return? ==> LeafOutcome(leaf, after, path, env) == Some(plan.ending.o))
  }

  lemma EffectsKeepKind(rec: Option<Record>, es: seq<Effect>, m: nat, kind: Kind)
    requires m <= |es| <= 3 && (rec.Some? ==> rec.value.kind == kind)
    requires forall e :: e in es && e.Persist? ==> e.w.kind == kind
    ensures var after := ApplyEffects(rec, es[..m]);
            after.Some? ==> after.value.kind == kind
  {
    ApplyUnfolds(rec, es, m);
  }

  /** Before its last effect a step that runs its body leaves no final record. */
  lemma CutStepStaysOpen(cfg: StepConfig, rec: Option<Record>, path: Path, env: Env, body: BodyResult, m: nat)
    requires !IsFinal(rec) && m < |StepExecution(rec, cfg, path, env, body).effects|
    ensures !IsFinal(ApplyEffects(rec, StepExecution(rec, cfg, path, env, body).effects[..m]))
  {
    ApplyUnfolds(rec, StepExecution(rec, cfg, path, env, body).effects, m);
  }

  /** The record after the effects up to the body and one more write. */
  lemma StepEnds(rec: Option<Record>, semantics: Semantics, startStored: bool, w: Write)
    ensures var es := BeginStep(rec, semantics, startStored) + [Persist(w)];
            && |es| <= 3
            && exists r: Option<Record> :: ApplyEffects(rec, es) == Some(ApplyWrite(r, w)) && AttemptOf(r) == AttemptOf(rec)
  {
    var es := BeginStep(rec, semantics, startStored) + [Persist(w)];
    ApplyUnfolds(rec, es, |es|);
    assert es[..|es|] == es;
    var started := Some(ApplyWrite(rec, StepWrite(Start, None, None)));
    assert ApplyEffects(rec, es) == Some(ApplyWrite(if |es| == 2 then rec else started, w));
    assert AttemptOf(started) == AttemptOf(rec);
  }

  lemma StepKeepsKind(cfg: StepConfig, rec: Option<Record>, path: Path, env: Env, body: BodyResult, m: nat)
    requires m <= |StepExecution(rec, cfg, path, env, body).effects| && (rec.Some? ==> rec.value.kind == StepKind)
    ensures var after := ApplyEffects(rec, StepExecution(rec, cfg, path, env, body).effects[..m]);
            after.Some? ==> after.value.kind == StepKind
  {
    EffectsKeepKind(rec, StepExecution(rec, cfg, path, env, body).effects, m, StepKind);
  }

  /** A recorded value or failure of a step is read back as it was. */
  lemma RecordedStepReads(cfg: StepConfig, r: Option<Record>, path: Path, env: Env, v: Value, m: string)
    requires CodecRoundTrips(env)
    ensures LeafOutcome(StepLeaf(cfg), Some(ApplyWrite(r, StepWrite(Succeed, Some(env.encode(v)), None))), path, env)
         == Some(Ok(v))
    ensures LeafOutcome(StepLeaf(cfg), Some(ApplyWrite(r, StepWrite(Fail, None, Some(m)))), path, env)
         == Some(Err(StepFailed(path, AttemptOf(r), m)))
    ensures !IsFinal(Some(ApplyWrite(r, StepWrite(Retry, None, Some(m)))))
  {
  }

  /** A step that runs its body to the end has recorded what it returns. */
  lemma EndedStepRecords(cfg: StepConfig, rec: Option<Record>, path: Path, env: Env, body: BodyResult)
    requires CodecRoundTrips(env) && !IsFinal(rec)
    ensures var plan := StepExecution(rec, cfg, path, env, body);
            var after := ApplyEffects(rec, plan.effects);
            && (plan.ending.Suspend? ==> !IsFinal(after))
            && (plan.ending.Return? ==> LeafOutcome(StepLeaf(cfg), after, path, env) == Some(plan.ending.o))
  {
    var es := StepExecution(rec, cfg, path, env, body).effects;
    var w := es[|es| - 1].w;
    StepEnds(rec, cfg.semantics, body.startStored, w);
    var r: Option<Record> :| ApplyEffects(rec, es) == Some(ApplyWrite(r, w)) && AttemptOf(r) == AttemptOf(rec);
    RecordedStepReads(cfg, r, path, env, if body.BodyOk? then body.v else "", if body.BodyErr? then body.message else "");
  }

  lemma ExecutedStepRecords(cfg: StepConfig, rec: Option<Record>, path: Path, env: Env, body: BodyResult, m: nat)
    requires CodecRoundTrips(env) && !IsFinal(rec) && LeafOk(StepLeaf(cfg), rec, path, env)
    requires m <= |StepExecution(rec, cfg, path, env, body).effects|
    ensures CutIsFaithful(StepLeaf(cfg), rec, path, env, StepExecution(rec, cfg, path, env, body), m)
  {
    var es := StepExecution(rec, cfg, path, env, body).effects;
    StepKeepsKind(cfg, rec, path, env, body, m);
    if m < |es| {
      CutStepStaysOpen(cfg, rec, path, env, body, m);
    } else {
      assert es[..m] == es;
      EndedStepRecords(cfg, rec, path, env, body);
    }
  }

  lemma StepRecords(leaf: Leaf, rec: Option<Record>, path: Path, env: Env, body: BodyResult, m: nat)
    requires CodecRoundTrips(env) && leaf.StepLeaf? && !IsFinal(rec) && LeafOk(leaf, rec, path, env)
    requires m <= |LeafPlan(leaf, rec, path, env, body).effects|
    ensures CutIsFaithful(leaf, rec, path, env, LeafPlan(leaf, rec, path, env, body), m)
  {
    if StepPlan(rec, leaf.cfg, path, env, body) == StepExecution(rec, leaf.cfg, path, env, body) {
      ExecutedStepRecords(leaf.cfg, rec, path, env, body, m);
    } else {
      EffectsKeepKind(rec, StepPlan(rec, leaf.cfg, path, env, body).effects, m, StepKind);
      ApplyUnfolds(rec, StepPlan(rec, leaf.cfg, path, env, body).effects, m);
    }
  }

  /** An open poll that keeps its limit has not reached it. */
  lemma PollIsWithinLimit(leaf: Leaf, rec: Option<Record>, path: Path, env: Env)
    requires leaf.PollLeaf? && KeepsLimit(leaf) && LeafOk(leaf, rec, path, env) && !IsFinal(rec)
    ensures !PollRuns.OverLimit(rec, leaf.poll)
  {
  }

  /** A poll whose check fails leaves an open record, from which the check fails again. */
  lemma FailedCheckRecords(leaf: Leaf, rec: Option<Record>, path: Path, env: Env, body: BodyResult, m: nat)
    requires leaf.PollLeaf? && !IsFinal(rec) && !PollRuns.OverLimit(rec, leaf.poll)
    requires rec.Some? ==> rec.value.kind == StepKind
    requires leaf.poll.check(PollState(rec, leaf.poll, env)).Err?
    requires m <= |LeafPlan(leaf, rec, path, env, body).effects|
    ensures var plan := LeafPlan(leaf, rec, path, env, body);
            var after := ApplyEffects(rec, plan.effects[..m]);
            && !IsFinal(after) && plan.ending.Return?
            && (m == |plan.effects| ==> LeafOutcome(leaf, after, path, env) == Some(plan.ending.o))
  {
    ApplyUnfolds(rec, LeafPlan(leaf, rec, path, env, body).effects, m);
  }

  /** One whose check succeeds records its value, or one more attempt. */
  lemma CheckRecords(leaf: Leaf, rec: Option<Record>, path: Path, env: Env, body: BodyResult, m: nat)
    requires CodecRoundTrips(env) && leaf.PollLeaf? && !IsFinal(rec) && !PollRuns.OverLimit(rec, leaf.poll)
    requires leaf.poll.check(PollState(rec, leaf.poll, env)).Ok?
    requires m <= |LeafPlan(leaf, rec, path, env, body).effects|
    ensures var plan := LeafPlan(leaf, rec, path, env, body);
            var after := ApplyEffects(rec, plan.effects[..m]);
            && (m < |plan.effects| || plan.ending.Suspend? ==> !IsFinal(after))
            && (m == |plan.effects| && plan.ending.Return? ==> LeafOutcome(leaf, after, path, env) == Some(plan.ending.o))
  {
    ApplyUnfolds(rec, LeafPlan(leaf, rec, path, env, body).effects, m);
  }

  lemma PollRecords(leaf: Leaf, rec: Option<Record>, path: Path, env: Env, body: BodyResult, m: nat)
    requires CodecRoundTrips(env) && leaf.PollLeaf? && !IsFinal(rec)
    requires KeepsLimit(leaf) && LeafOk(leaf, rec, path, env)
    requires m <= |LeafPlan(leaf, rec, path, env, body).effects|
    ensures CutIsFaithful(leaf, rec, path, env, LeafPlan(leaf, rec, path, env, body), m)
  {
    PollIsWithinLimit(leaf, rec, path, env);
    PollRuns.OneInvocation(rec, PollRuns.PollSetting(leaf.poll, path, env), m);
    EffectsKeepKind(rec, LeafPlan(leaf, rec, path, env, body).effects, m, StepKind);
    if leaf.poll.check(PollState(rec, leaf.poll, env)).Err? {
      FailedCheckRecords(leaf, rec, path, env, body, m);
    } else {
      CheckRecords(leaf, rec, path, env, body, m);
    }
  }

  /**
   A cut plan leaves no final record, a suspending one neither; what a plan leaves when it
   returns determines the very outcome it returns.
   */
  lemma LeafRecordsWhatItReturns(leaf: Leaf, rec: Option<Record>, path: Path, env: Env, body: BodyResult, m: nat)
    requires CodecRoundTrips(env)
    requires leaf != WaitLeaf(true) && !IsFinal(rec)
    requires KeepsLimit(leaf) && LeafOk(leaf, rec, path, env)
    requires m <= |LeafPlan(leaf, rec, path, env, body).effects|
    ensures CutIsFaithful(leaf, rec, path, env, LeafPlan(leaf, rec, path, env, body), m)
  {
    match leaf
    case StepLeaf(_) => StepRecords(leaf, rec, path, env, body, m);
    case PollLeaf(_) => PollRecords(leaf, rec, path, env, body, m);
    case WaitLeaf(_) => ApplyUnfolds(rec, LeafPlan(leaf, rec, path, env, body).effects, m);
  }

  // ----- The backend's operations between invocations -----

  /** An operation the service may perform on its own: a due retry becomes Ready, a wait ends. */
  predicate ServiceMove(before: Record, after: Record) {
    || (before.kind == StepKind && before.status == Pending && after == before.(status := Ready))
    || (before.kind == WaitKind && before.status == Started
        && (after == before.(status := Succeeded) || after == before.(status := Failed)))
  }

  // ----- One invocation -----

  datatype Stop = Suspended | Crashed | Blocked

  datatype Ended = Done(o: Outcome) | Stopped(why: Stop)

  /** `seen` lists the outcomes handed to handler code, with the operation that gave each. */
  datatype Run = Run(ended: Ended, live: Store, fuel: nat, seen: seq<(Path, Outcome)>)

  /** An invocation: the records it found, the codec, and the results its bodies would give. */
  datatype World = World(snap: Store, env: Env, body: nat -> BodyResult)

  /** Payloads longer than this are not stored: the child is re-run instead. */
  const CHECKPOINT_SIZE_LIMIT_BYTES: nat := 256 * 1024

  /** The backend never hears again from below a context it knows to be finished. */
  predicate ParentFinished(c: Path, live: Store) {
    c != [] && IsFinal(Get(live, c))
  }

  /** Performs the effects of operation `key` of context `c`, one by one, as far as the fuel lasts. */
  function Perform(c: Path, key: Path, es: seq<Effect>, live: Store, fuel: nat): (r: Run)
    ensures r.seen == []
  {
    if es == [] then Run(Done(Ok(UNIT)), live, fuel, [])
    else if fuel == 0 then Run(Stopped(Crashed), live, fuel, [])
    else if es[0].Persist? && ParentFinished(c, live) then Run(Stopped(Blocked), live, fuel, [])
    else Perform(c, key, es[1..], Put(live, key, ApplyEffect(Get(live, key), es[0])), fuel - 1)
  }

  /** Below an open context, a cut run of effects is a prefix of them. */
  lemma {:induction false} PerformIsAPrefix(c: Path, e: Entry, es: seq<Effect>, live: Store, fuel: nat)
    requires !ParentFinished(c, live)
    ensures var m := Min(fuel, |es|);
            var after := Put(live, c + [e], ApplyEffects(Get(live, c + [e]), es[..m]));
            var ended := if m < |es| then Stopped(Crashed) else Done(Ok(UNIT));
            Perform(c, c + [e], es, live, fuel) == Run(ended, after, fuel - m, [])
  {
    var key := c + [e];
    var m := Min(fuel, |es|);
    if m == 0 {
      assert es[..0] == [] && Put(live, key, Get(live, key)) == live;
    } else {
      var next := Put(live, key, ApplyEffect(Get(live, key), es[0]));
      assert Get(next, c) == Get(live, c);
      PerformIsAPrefix(c, e, es[1..], next, fuel - 1);
      assert es[..m][1..] == es[1..][..m - 1];
      var after := ApplyEffects(Get(live, key), es[..m]);
      assert Put(next, key, after) == Put(live, key, after);
    }
  }

  /** Performs a plan as far as the fuel lasts. */
  function PlanRun(plan: Plan, c: Path, key: Path, live: Store, fuel: nat): Run {
    var r := Perform(c, key, plan.effects, live, fuel);
    if r.ended.Stopped? then r
    else r.(ended := if plan.ending.Suspend? then Stopped(Suspended) else Done(plan.ending.o))
  }

  /** One call of a leaf operation. */
  function LeafRun(leaf: Leaf, c: Path, key: Path, w: World, live: Store, fuel: nat): Run {
    PlanRun(LeafPlan(leaf, Get(w.snap, key), key, w.env, w.body(fuel)), c, key, live, fuel)
  }

  function ChildStart(): seq<Effect> {
    [Persist(Write(ContextKind, Start, None, None, false))]
  }

  /** The update that completes a child context. */
  function ChildEnd(r: Outcome, env: Env): Write {
    match r
    case Ok(v) =>
      var payload := env.encode(v);
      if |payload| > CHECKPOINT_SIZE_LIMIT_BYTES then Write(ContextKind, Succeed, Some(""), None, true)
      else Write(ContextKind, Succeed, Some(payload), None, false)
    case Err(e) => Write(ContextKind, Fail, None, Some(env.show(e)), false)
  }

  /** What the caller of a child context receives when the child's code ended with `r`. */
  function ChildOutcome(key: Path, r: Outcome, env: Env): Outcome {
    match r
    case Ok(_) => r
    case Err(e) => Err(ChildContextFailed(key, env.show(e)))
  }

  datatype ChildReplay = ReturnRecorded(o: Outcome) | ReplayChildren | Continue

  function EvaluateReplay(rec: Option<Record>, key: Path, env: Env): ChildReplay {
    if rec.None? then Continue
    else
      match rec.value.status
      case Succeeded =>
        if rec.value.replayChildren then ReplayChildren
        else if rec.value.result.Some? && env.decode(rec.value.result.value).Some? then
          ReturnRecorded(Ok(env.decode(rec.value.result.value).value))
        else Continue
      case Failed => ReturnRecorded(Err(ChildContextFailed(key, rec.value.error.GetOr("Child context failed"))))
      case _ => Continue
  }

  /** Continues after operation `key` gave `o`, having seen `before` inside it. */
  function Then(o: Outcome, key: Path, before: seq<(Path, Outcome)>, rest: Run): Run {
    rest.(seen := before + [(key, o)] + rest.seen)
  }

  /** Runs the rest of context `c`, whose next operation has number `n`. */
  ghost function Exec(p: Prog, c: Path, n: nat, w: World, live: Store, fuel: nat): Run
    requires Total(p)
    decreases p, 0
  {
    match p
    case Finish(r) => Run(Done(r), live, fuel, [])
    case Call(name, leaf, k) =>
      var key := c + [Entry(name, n)];
      var r := LeafRun(leaf, c, key, w, live, fuel);
      if r.ended.Stopped? then r
      else Then(r.ended.o, key, [], Exec(k[r.ended.o], c, n + 1, w, r.live, r.fuel))
    case Nested(name, body, k) =>
      var key := c + [Entry(name, n)];
      var r := ExecChild(body, c, key, w, live, fuel);
      if r.ended.Stopped? then r
      else Then(r.ended.o, key, r.seen, Exec(k[r.ended.o], c, n + 1, w, r.live, r.fuel))
  }

  /** Records the end of a child context whose code ran as `r`. */
  function FinishChild(r: Run, c: Path, key: Path, env: Env): Run {
    if r.ended.Stopped? then r
    else
      var end := Perform(c, key, [Persist(ChildEnd(r.ended.o, env))], r.live, r.fuel);
      if end.ended.Stopped? then end.(seen := r.seen)
      else Run(Done(ChildOutcome(key, r.ended.o, env)), end.live, end.fuel, r.seen)
  }

  /** A child context: replayed from its record, re-run for its value, or executed. */
  ghost function ExecChild(body: Prog, c: Path, key: Path, w: World, live: Store, fuel: nat): Run
    requires Total(body)
    decreases body, 1
  {
    match EvaluateReplay(Get(w.snap, key), key, w.env)
    case ReturnRecorded(o) => Run(Done(o), live, fuel, [])
    case ReplayChildren => Exec(body, key, 0, w, live, fuel)
    case Continue =>
      var start := if key in w.snap then [] else ChildStart();
      var r0 := Perform(c, key, start, live, fuel);
      if r0.ended.Stopped? then r0
      else
        FinishChild(Exec(body, key, 0, w, r0.live, r0.fuel), c, key, w.env)
  }
}
