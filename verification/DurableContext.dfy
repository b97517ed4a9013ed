/**
 The engine in the form the SDK has it: a context object hands out operation numbers and
 runs operations that write checkpoints one after the other; each method is proved against
 the functions of `ReplayEngine`.
 */
module DurableContext {
  import opened Wrappers
  import opened Operations
  import opened ReplayEngine

  /** What the contexts of one invocation share: the records it found and the live store. */
  class Invocation {
    const w: World
    var live: Store
    var fuel: nat

    constructor (w: World, fuel: nat)
      ensures this.w == w && live == w.snap && this.fuel == fuel
    {
      this.w := w;
      this.live := w.snap;
      this.fuel := fuel;
    }

    /** The record found when the invocation began; it is never refreshed. */
    function GetStepData(key: Path): Option<Record> {
      Get(w.snap, key)
    }

    /** Performs one effect for operation `key` of context `c`; a `Stopped` result is the end of the invocation. */
    method Do(c: Path, key: Path, e: Effect) returns (r: Ended)
      modifies this
      ensures var run := Perform(c, key, [e], old(live), old(fuel));
              r == run.ended && live == run.live && fuel == run.fuel
    {
      if fuel == 0 {
        return Stopped(Crashed);
      }
      if e.Persist? && ParentFinished(c, live) {
        return Stopped(Blocked);
      }
      live := Put(live, key, ApplyEffect(Get(live, key), e));
      fuel := fuel - 1;
      r := Done(Ok(UNIT));
    }
  }

  /** Performing some effects and then one more. */
  lemma {:induction false} PerformAppends(c: Path, key: Path, es: seq<Effect>, e: Effect, live: Store, fuel: nat)
    ensures var r := Perform(c, key, es, live, fuel);
            Perform(c, key, es + [e], live, fuel)
              == if r.ended.Stopped? then r else Perform(c, key, [e], r.live, r.fuel)
  {
    if es == [] {
      assert es + [e] == [e];
    } else {
      assert (es + [e])[1..] == es[1..] + [e];
      if fuel > 0 {
        PerformAppends(c, key, es[1..], e, Put(live, key, ApplyEffect(Get(live, key), es[0])), fuel - 1);
      }
    }
  }

  /** When a prefix of the effects already ends the invocation, the rest does not happen. */
  lemma {:induction false} StopsEarly(c: Path, key: Path, first: seq<Effect>, all: seq<Effect>, live: Store, fuel: nat)
    requires first <= all && Perform(c, key, first, live, fuel).ended.Stopped?
    ensures Perform(c, key, all, live, fuel) == Perform(c, key, first, live, fuel)
    decreases |all|
  {
    if first != all {
      var shorter := all[..|all| - 1];
      assert all == shorter + [all[|all| - 1]];
      StopsEarly(c, key, first, shorter, live, fuel);
      PerformAppends(c, key, shorter, all[|all| - 1], live, fuel);
    }
  }

  class ExecutionContext {
    const invocation: Invocation
    const prefix: Path
    var counter: nat

    constructor (invocation: Invocation, prefix: Path)
      ensures this.invocation == invocation && this.prefix == prefix && counter == 0
    {
      this.invocation := invocation;
      this.prefix := prefix;
      this.counter := 0;
    }

    method NextOperationId(name: Option<string>) returns (key: Path)
      modifies this`counter
      ensures key == prefix + [Entry(name, old(counter))] && counter == old(counter) + 1
    {
      key := prefix + [Entry(name, counter)];
      counter := counter + 1;
    }

    /** A recorded outcome, a suspension, or the end of an interrupted attempt; `None` means: execute. */
    method HandleReplay(key: Path, cfg: StepConfig) returns (r: Option<Ended>)
      modifies invocation
      ensures var run := LeafRun(StepLeaf(cfg), prefix, key, invocation.w, old(invocation.live), old(invocation.fuel));
              r.Some? ==> r.value == run.ended && invocation.live == run.live && invocation.fuel == run.fuel
      ensures r.None? ==> unchanged(invocation)
      ensures r.None? <==> RunsBody(invocation.GetStepData(key), cfg.semantics)
    {
      var op := invocation.GetStepData(key);
      if op.None? {
        return None;
      }
      var env := invocation.w.env;
      match op.value.status {
        case Succeeded =>
          return Some(Done(Recorded(op.value, env, "Missing step output in replay")));
        case Failed =>
          return Some(Done(Err(StepFailed(key, AttemptOf(op), op.value.error.GetOr("Replayed failure")))));
        case Pending =>
          return Some(Stopped(Suspended));
        case Started =>
          if cfg.semantics == AtLeastOncePerRetry {
            return None;
          }
          var attemptsMade := AttemptOf(op);
          var interrupted := env.interrupted(key);
          if !cfg.retry(interrupted, attemptsMade) {
            var failed := invocation.Do(prefix, key, Persist(StepWrite(Fail, None, Some(interrupted))));
            if failed.Stopped? {
              return Some(failed);
            }
            return Some(Done(Err(StepFailed(key, attemptsMade, interrupted))));
          }
          var retried := invocation.Do(prefix, key, Persist(StepWrite(Retry, None, Some(interrupted))));
          return Some(if retried.Stopped? then retried else Stopped(Suspended));
        case _ =>
          return None;
      }
    }

    /** Up to the body: the START is waited for, or left to be stored while the body is running. */
    method EnterStep(key: Path, cfg: StepConfig, startStored: bool) returns (r: Ended)
      requires RunsBody(invocation.GetStepData(key), cfg.semantics)
      modifies invocation
      ensures var es := BeginStep(invocation.GetStepData(key), cfg.semantics, startStored);
              var run := Perform(prefix, key, es, old(invocation.live), old(invocation.fuel));
              r == run.ended && invocation.live == run.live && invocation.fuel == run.fuel
    {
      ghost var live0, fuel0 := invocation.live, invocation.fuel;
      var op := invocation.GetStepData(key);
      ghost var all := BeginStep(op, cfg.semantics, startStored);
      ghost var es := [];
      var start, enter := Persist(StepWrite(Start, None, None)), EnterBody(AttemptOf(op));
      var alreadyStarted := op.Some? && (op.value.status == Started || op.value.status == Ready);
      var queued := false;
      if !alreadyStarted {
        if cfg.semantics == AtMostOncePerRetry || startStored {
          r := invocation.Do(prefix, key, start);
          es := [start];
          if r.Stopped? {
            StopsEarly(prefix, key, es, all, live0, fuel0);
            return;
          }
        } else {
          queued := true;
        }
      }
      PerformAppends(prefix, key, es, enter, live0, fuel0);
      r := invocation.Do(prefix, key, enter);
      es := es + [enter];
      if r.Stopped? {
        StopsEarly(prefix, key, es, all, live0, fuel0);
        return;
      }
      if queued {
        PerformAppends(prefix, key, es, start, live0, fuel0);
        r := invocation.Do(prefix, key, start);
        es := es + [start];
      }
      assert es == all;
    }

    method RunStepExecution(key: Path, cfg: StepConfig) returns (r: Ended)
      requires RunsBody(invocation.GetStepData(key), cfg.semantics)
      modifies invocation
      ensures var run := LeafRun(StepLeaf(cfg), prefix, key, invocation.w, old(invocation.live), old(invocation.fuel));
              r == run.ended && invocation.live == run.live && invocation.fuel == run.fuel
    {
      ghost var live0, fuel0 := invocation.live, invocation.fuel;
      var op := invocation.GetStepData(key);
      var env := invocation.w.env;
      var result := invocation.w.body(invocation.fuel);
      ghost var begin := BeginStep(op, cfg.semantics, result.startStored);
      r := EnterStep(key, cfg, result.startStored);
      if r.Stopped? {
        StopsEarly(prefix, key, begin, StepPlan(op, cfg, key, env, result).effects, live0, fuel0);
        return;
      }
      var attempt := AttemptOf(op);
      var update: Effect;
      var ending: Ended;
      match result {
        case BodyOk(v, _) =>
          update, ending := Persist(StepWrite(Succeed, Some(env.encode(v)), None)), Done(Ok(v));
        case BodyErr(m, _) =>
          if cfg.retry(m, attempt) {
            update, ending := Persist(StepWrite(Retry, None, Some(m))), Stopped(Suspended);
          } else {
            update, ending := Persist(StepWrite(Fail, None, Some(m))), Done(Err(StepFailed(key, attempt, m)));
          }
      }
      PerformAppends(prefix, key, begin, update, live0, fuel0);
      r := invocation.Do(prefix, key, update);
      if r.Done? {
        r := ending;
      }
    }

    /** `step`: replay, or execute. */
    method Step(name: Option<string>, cfg: StepConfig) returns (r: Ended, key: Path)
      modifies this`counter, invocation
      ensures key == prefix + [Entry(name, old(counter))] && counter == old(counter) + 1
      ensures var run := LeafRun(StepLeaf(cfg), prefix, key, invocation.w, old(invocation.live), old(invocation.fuel));
              r == run.ended && invocation.live == run.live && invocation.fuel == run.fuel
    {
      key := NextOperationId(name);
      var replayed := HandleReplay(key, cfg);
      if replayed.Some? {
        r := replayed.value;
      } else {
        r := RunStepExecution(key, cfg);
      }
    }

    method Wait(name: Option<string>, zero: bool) returns (r: Ended, key: Path)
      modifies this`counter, invocation
      ensures key == prefix + [Entry(name, old(counter))] && counter == old(counter) + 1
      ensures var run := LeafRun(WaitLeaf(zero), prefix, key, invocation.w, old(invocation.live), old(invocation.fuel));
              r == run.ended && invocation.live == run.live && invocation.fuel == run.fuel
    {
      key := NextOperationId(name);
      if zero {
        r := Done(Ok(UNIT));
        return;
      }
      var op := invocation.GetStepData(key);
      if op.Some? {
        match op.value.status {
          case Succeeded => r := Done(Ok(UNIT));
          case Failed => r := Done(Err(Internal("Wait failed in replay")));
          case _ => r := Stopped(Suspended);
        }
        return;
      }
      r := invocation.Do(prefix, key, Persist(Write(WaitKind, Start, None, None, false)));
      if r.Done? {
        // The re-check after the START reads the same snapshot and finds nothing.
        r := Stopped(Suspended);
      }
    }

    /** `wait_for_condition`: the recorded result, or one more attempt from the recorded state. */
    method WaitForCondition(name: Option<string>, cfg: PollConfig) returns (r: Ended, key: Path)
      modifies this`counter, invocation
      ensures key == prefix + [Entry(name, old(counter))] && counter == old(counter) + 1
      ensures var plan := PollPlan(invocation.GetStepData(key), cfg, key, invocation.w.env);
              var run := PlanRun(plan, prefix, key, old(invocation.live), old(invocation.fuel));
              r == run.ended && invocation.live == run.live && invocation.fuel == run.fuel
    {
      key := NextOperationId(name);
      var op := invocation.GetStepData(key);
      if op.Some? {
        match op.value.status {
          case Succeeded =>
            r := Done(Recorded(op.value, invocation.w.env, "Missing wait-for-condition result in replay"));
            return;
          case Failed =>
            r := Done(Err(StepFailed(key, op.value.attempt.GetOr(1), op.value.error.GetOr("Wait for condition failed"))));
            return;
          case _ =>
        }
      }
      r := RunWaitCondition(key, cfg);
    }

    method RunWaitCondition(key: Path, cfg: PollConfig) returns (r: Ended)
      requires !IsFinal(invocation.GetStepData(key))
      modifies invocation
      ensures var plan := PollPlan(invocation.GetStepData(key), cfg, key, invocation.w.env);
              var run := PlanRun(plan, prefix, key, old(invocation.live), old(invocation.fuel));
              r == run.ended && invocation.live == run.live && invocation.fuel == run.fuel
    {
      ghost var live0, fuel0 := invocation.live, invocation.fuel;
      var op := invocation.GetStepData(key);
      var env := invocation.w.env;
      ghost var all := PollPlan(op, cfg, key, env).effects;
      var state := cfg.initial;
      if op.Some? && op.value.result.Some? {
        state := env.decode(op.value.result.value).GetOr(cfg.initial);
      }
      var attempt := AttemptOf(op);
      if cfg.maxAttempts.Some? && attempt > cfg.maxAttempts.value {
        var error := WaitConditionExceeded(attempt);
        r := invocation.Do(prefix, key, Persist(StepWrite(Fail, None, Some(env.show(error)))));
        if r.Done? {
          r := Done(Err(error));
        }
        return;
      }
      ghost var es := [];
      if op.None? {
        var start := Persist(StepWrite(Start, None, None));
        r := invocation.Do(prefix, key, start);
        es := [start];
        if r.Stopped? {
          StopsEarly(prefix, key, es, all, live0, fuel0);
          return;
        }
      }
      PerformAppends(prefix, key, es, EnterBody(attempt), live0, fuel0);
      r := invocation.Do(prefix, key, EnterBody(attempt));
      es := es + [EnterBody(attempt)];
      if r.Stopped? {
        StopsEarly(prefix, key, es, all, live0, fuel0);
        return;
      }
      var checked := cfg.check(state);
      if checked.Err? {
        r := Done(checked);
        return;
      }
      state := checked.value;
      var stops := cfg.stop(state, attempt);
      var update := Persist(StepWrite(if stops then Succeed else Retry, Some(env.encode(state)), None));
      PerformAppends(prefix, key, es, update, live0, fuel0);
      r := invocation.Do(prefix, key, update);
      es := es + [update];
      assert es == all;
      if r.Done? {
        r := if stops then Done(Ok(state)) else Stopped(Suspended);
      }
    }

    /** `run_in_child_context`: the recorded result, the value rebuilt by running the code, or an execution. */
    method RunInChildContext(name: Option<string>, body: Prog) returns (r: Ended, key: Path)
      requires Total(body)
      modifies this`counter, invocation
      ensures key == prefix + [Entry(name, old(counter))] && counter == old(counter) + 1
      ensures var run := ExecChild(body, prefix, key, invocation.w, old(invocation.live), old(invocation.fuel));
              r == run.ended && invocation.live == run.live && invocation.fuel == run.fuel
      decreases body, 2
    {
      key := NextOperationId(name);
      match EvaluateReplay(invocation.GetStepData(key), key, invocation.w.env) {
        case ReturnRecorded(o) =>
          r := Done(o);
        case ReplayChildren =>
          var again := new ExecutionContext(invocation, key);
          r := again.RunHandler(body);
        case Continue =>
          r := RunChildExecution(key, body);
      }
    }

    method RunChildExecution(key: Path, body: Prog) returns (r: Ended)
      requires Total(body)
      requires EvaluateReplay(invocation.GetStepData(key), key, invocation.w.env).Continue?
      modifies invocation
      ensures var run := ExecChild(body, prefix, key, invocation.w, old(invocation.live), old(invocation.fuel));
              r == run.ended && invocation.live == run.live && invocation.fuel == run.fuel
      decreases body, 1
    {
      if invocation.GetStepData(key).None? {
        r := invocation.Do(prefix, key, Persist(Write(ContextKind, Start, None, None, false)));
        if r.Stopped? {
          return;
        }
      }
      var child := new ExecutionContext(invocation, key);
      r := child.RunHandler(body);
      if r.Done? {
        r := CompleteChild(key, r.o);
      }
    }

    /** The last checkpoint of a child context, with the size cut-off on its payload. */
    method CompleteChild(key: Path, result: Outcome) returns (r: Ended)
      modifies invocation
      ensures forall seen :: var before := Run(Done(result), old(invocation.live), old(invocation.fuel), seen);
                             var run := FinishChild(before, prefix, key, invocation.w.env);
                             r == run.ended && invocation.live == run.live && invocation.fuel == run.fuel
    {
      var env := invocation.w.env;
      match result {
        case Err(error) =>
          var failed := invocation.Do(prefix, key, Persist(Write(ContextKind, Fail, None, Some(env.show(error)), false)));
          r := if failed.Stopped? then failed else Done(Err(ChildContextFailed(key, env.show(error))));
        case Ok(value) =>
          var payload := env.encode(value);
          var replayChildren := false;
          if |payload| > CHECKPOINT_SIZE_LIMIT_BYTES {
            replayChildren := true;
            payload := "";
          }
          var done := invocation.Do(prefix, key, Persist(Write(ContextKind, Succeed, Some(payload), None, replayChildren)));
          r := if done.Stopped? then done else Done(result);
      }
    }

    /** Handler code, driven by the outcomes of the operations it asks for. */
    method RunHandler(p: Prog) returns (r: Ended)
      requires Total(p)
      modifies this`counter, invocation
      ensures var run := Exec(p, prefix, old(counter), invocation.w, old(invocation.live), old(invocation.fuel));
              r == run.ended && invocation.live == run.live && invocation.fuel == run.fuel
      decreases p, 0
    {
      var key: Path := [];
      match p {
        case Finish(o) =>
          r := Done(o);
        case Call(name, leaf, k) =>
          match leaf {
            case StepLeaf(cfg) => r, key := Step(name, cfg);
            case WaitLeaf(zero) => r, key := Wait(name, zero);
            case PollLeaf(poll) => r, key := WaitForCondition(name, poll);
          }
          if r.Done? {
            r := RunHandler(k[r.o]);
          }
        case Nested(name, body, k) =>
          r, key := RunInChildContext(name, body);
          if r.Done? {
            r := RunHandler(k[r.o]);
          }
      }
    }
  }
}
