/** What the checkpoint queue guarantees over every interleaving of producers and worker. */
module QueueGuarantees {
  import opened Wrappers
  import opened OperationUpdates
  import opened Coalesce
  import opened Batching
  import opened CheckpointQueue

  /** There is at most one worker, and the flag says whether there is one. */
  lemma {:induction false} AtMostOneWorker(init: string, steps: seq<Action>, exit: Exit)
    ensures var s := After(init, steps, exit);
            |s.workers| <= 1 && (s.processing <==> |s.workers| == 1)
  {
    EveryRunKeepsInv(init, steps, exit);
  }

  lemma {:induction false} RunStaysInOrder(init: string, steps: seq<Action>, exit: Exit)
    ensures InOrder(After(init, steps, exit))
  {
    EveryRunKeepsInv(init, steps, exit);
  }

  lemma PlaceOf(s: State, i: nat)
    requires InOrder(s)
    ensures |s.answered| + |Line(s)| == |s.accepted|
    ensures i < |s.answered| ==> s.answered[i] == i
    ensures i < |Line(s)| ==> Line(s)[i] == Queued(|s.answered| + i, s.accepted[|s.answered| + i])
  {
  }

  /**
   Answers are given in the order of acceptance, once each; what has no answer is in flight or
   queued, in exactly one place, and carries the update that was accepted.
   */
  lemma EachUpdateHasOnePlace(init: string, steps: seq<Action>, exit: Exit, s: State, i: nat)
    requires s == After(init, steps, exit)
    ensures |s.answered| + |Line(s)| == |s.accepted|
    ensures i < |s.answered| ==> s.answered[i] == i
    ensures i < |Line(s)| ==> Line(s)[i] == Queued(|s.answered| + i, s.accepted[|s.answered| + i])
  {
    RunStaysInOrder(init, steps, exit);
    PlaceOf(s, i);
  }

  /** Every call carries the token left by the call before it, the first one the initial token. */
  lemma {:induction false} CallsChainTokens(init: string, steps: seq<Action>, exit: Exit, i: nat)
    requires i < |After(init, steps, exit).calls|
    ensures var calls := After(init, steps, exit).calls;
            calls[i].token == if i == 0 then init else TokenAfter(calls[i - 1])
  {
    EveryRunKeepsInv(init, steps, exit);
    var calls := After(init, steps, exit).calls;
    assert calls[..i] == [] || calls[..i][i - 1] == calls[i - 1];
  }

  /**
   The backend against the producers, from the records an invocation starts with: until a batch
   fails, the coalesced batches sent so far leave the records that writing the accepted updates
   singly, in the order of acceptance, up to the first one not sent, would leave.
   */
  lemma {:induction false} BackendSeesAcceptedPrefix<R(!new)>(
      step: Backend<R>, store: map<string, R>, init: string, steps: seq<Action>, exit: Exit)
    requires RespectsMerge(step)
    requires !After(init, steps, exit).failed
    ensures var s := After(init, steps, exit);
            && NotSent(s) <= |s.accepted|
            && WriteBatches(step, store, SentBatches(s.calls))
               == WriteAll(step, store, s.accepted[..|s.accepted| - NotSent(s)])
  {
    var s := After(init, steps, exit);
    EveryRunKeepsInv(init, steps, exit);
    var bs := SentBatches(s.calls);
    forall b | b in bs
      ensures !Conflict(b)
    {
      var i :| 0 <= i < |bs| && bs[i] == b;
      assert s.calls[i] in s.calls;
    }
    BatchesRefineSingleWrites(step, store, bs);
  }

  // ----- Stuck queues -----

  /** An update is queued, nobody is about to start a worker, and no worker will look at the queue again. */
  predicate Stranded(s: State) {
    s.queue != [] && s.starting == {} && forall w :: 0 <= w < |s.workers| ==> s.workers[w] == Leaving
  }

  /**
   A producer finds the flag set by a worker that has already found the queue empty, and is
   the last one that could have started another.
   */
  predicate LateStart(s: State, a: Action) {
    && a.MaybeStart? && s.starting == {a.ticket}
    && s.workers == [Leaving] && s.processing && s.queue != []
  }

  lemma WorkerDoesNotStrand(s: State, a: Action, exit: Exit)
    requires OneWorker(s) && !Stranded(s) && Enabled(s, a) && !a.Push? && !a.MaybeStart?
    ensures !Stranded(Next(s, a, exit))
  {
    var t := Next(s, a, exit);
    assert t.starting == s.starting;
    if !a.Drain? && !a.Leave? && !(a.Take? && s.queue == []) {
      assert t.workers[0] != Leaving;
    }
  }

  lemma StrandingStart(s: State, t: nat)
    requires OneWorker(s) && !Stranded(s) && t in s.starting
    ensures Stranded(StartStep(s, t)) <==> LateStart(s, MaybeStart(t))
  {
    var after := StartStep(s, t);
    if s.processing {
      assert s.workers == [s.workers[0]];
      assert after.starting == {} <==> s.starting == {t};
      assert s.workers[0] in after.workers;
    } else {
      assert Looking in after.workers;
    }
  }

  /** Only a late start strands an update. */
  lemma StrandingStep(init: string, s: State, a: Action, exit: Exit)
    requires Inv(init, s) && !Stranded(s)
    ensures Stranded(Next(s, a, exit)) <==> LateStart(s, a)
  {
    if Enabled(s, a) {
      match a
      case Push(u) => assert |s.accepted| in PushStep(s, u).starting;
      case MaybeStart(ticket) => StrandingStart(s, ticket);
      case _ => WorkerDoesNotStrand(s, a, exit);
    }
  }

  lemma AfterOneMore(init: string, steps: seq<Action>, i: nat, exit: Exit)
    requires i < |steps|
    ensures After(init, steps[..i + 1], exit) == Next(After(init, steps[..i], exit), steps[i], exit)
  {
    assert steps[..i + 1][..i] == steps[..i];
  }

  /** A step from a state that is not stranded to one that is. */
  lemma StrandsAt(init: string, steps: seq<Action>, i: nat, exit: Exit)
    requires i < |steps| && Stranded(After(init, steps[..i + 1], exit)) && !Stranded(After(init, steps[..i], exit))
    ensures LateStart(After(init, steps[..i], exit), steps[i])
  {
    AfterOneMore(init, steps, i, exit);
    EveryRunKeepsInv(init, steps[..i], exit);
    StrandingStep(init, After(init, steps[..i], exit), steps[i], exit);
  }

  /** Nobody is stranded before the first step. */
  lemma StrandedLater(init: string, steps: seq<Action>, exit: Exit)
    ensures !Stranded(After(init, steps[..0], exit))
  {
    assert steps[..0] == [];
  }

  lemma {:induction false} FirstStranded(init: string, steps: seq<Action>, i: nat, exit: Exit) returns (j: nat)
    requires i <= |steps| && Stranded(After(init, steps[..i], exit))
    ensures j < |steps| && LateStart(After(init, steps[..j], exit), steps[j])
    decreases i
  {
    StrandedLater(init, steps, exit);
    if Stranded(After(init, steps[..i - 1], exit)) {
      j := FirstStranded(init, steps, i - 1, exit);
    } else {
      j := i - 1;
      StrandsAt(init, steps, j, exit);
    }
  }

  /** A run reaches a stranded state exactly if it contains a late start. */
  lemma {:induction false} StrandedExactly(init: string, steps: seq<Action>, exit: Exit)
    ensures (exists i :: 0 <= i <= |steps| && Stranded(After(init, steps[..i], exit)))
       <==> (exists i :: 0 <= i < |steps| && LateStart(After(init, steps[..i], exit), steps[i]))
  {
    if i :| 0 <= i < |steps| && LateStart(After(init, steps[..i], exit), steps[i]) {
      AfterOneMore(init, steps, i, exit);
      EveryRunKeepsInv(init, steps[..i], exit);
      StrandingStep(init, After(init, steps[..i], exit), steps[i], exit);
      assert Stranded(After(init, steps[..i + 1], exit));
    }
    if i :| 0 <= i <= |steps| && Stranded(After(init, steps[..i], exit)) {
      var j := FirstStranded(init, steps, i, exit);
    }
  }

  predicate Lingers(s: State) {
    |s.workers| == 1 && s.workers[0] == Leaving
  }

  lemma LingerStep(s: State, a: Action)
    requires OneWorker(s) && !Lingers(s)
    ensures !Lingers(Next(s, a, OneStep))
  {
  }

  /** When a worker leaves in the step that sees the queue empty, nobody ever waits to leave. */
  lemma {:induction false} NobodyLingers(init: string, steps: seq<Action>)
    ensures !Lingers(After(init, steps, OneStep))
  {
    if steps != [] {
      var before := steps[..|steps| - 1];
      NobodyLingers(init, before);
      EveryRunKeepsInv(init, before, OneStep);
      LingerStep(After(init, before, OneStep), steps[|steps| - 1]);
    }
  }

  /** With the empty test and the clearing of the flag in one step, no queue is ever stuck. */
  lemma OneStepExitNeverStrands(init: string, steps: seq<Action>)
    ensures !Stranded(After(init, steps, OneStep))
  {
    assert steps[..|steps|] == steps;
    if Stranded(After(init, steps, OneStep)) {
      var j := FirstStranded(init, steps, |steps|, OneStep);
      NobodyLingers(init, steps[..j]);
    }
  }

  // ----- Completion -----

  /** What `wait_for_queue_completion` waits for. */
  predicate Complete(s: State) {
    s.queue == [] && !s.processing
  }

  /** Remaining work; every effective step other than a push lowers it. */
  function WorkerCost(w: Worker): nat {
    match w
    case Looking => 2
    case HasBatch(b) => 6 + |b|
    case HasToken(b, _) => 5 + |b|
    case Awaiting(b, _) => 4 + |b|
    case Acking(b) => 3 + |b|
    case FailAcking(b) => 3 + |b|
    case Draining => 2
    case Leaving => 1
  }

  function Cost(s: State): nat {
    8 * |s.queue| + 3 * |s.starting| + if |s.workers| == 1 then WorkerCost(s.workers[0]) else 0
  }

  lemma StartLowersCost(s: State, t: nat)
    requires OneWorker(s) && t in s.starting
    ensures Cost(StartStep(s, t)) < Cost(s)
  {
    assert |s.starting - {t}| == |s.starting| - 1;
  }

  lemma TakeLowersCost(s: State, exit: Exit)
    requires OneWorker(s) && Enabled(s, Take(0))
    ensures Cost(TakeStep(s, 0, exit)) < Cost(s)
  {
    assert s.workers[..0] + s.workers[1..] == [];
  }

  lemma WorkerLowersCost(s: State, a: Action, exit: Exit)
    requires OneWorker(s) && Enabled(s, a)
    requires a.ReadToken? || a.Send? || a.Respond? || a.Acknowledge? || a.Drain? || a.Leave?
    ensures Cost(Next(s, a, exit)) < Cost(s)
  {
    assert s.workers[..0] + s.workers[1..] == [];
    var t := Next(s, a, exit);
    assert t.starting == s.starting;
    assert !a.Drain? ==> t.queue == s.queue;
  }

  lemma StepsLowerCost(s: State, a: Action, exit: Exit)
    requires OneWorker(s) && Enabled(s, a) && !a.Push?
    ensures Cost(Next(s, a, exit)) < Cost(s)
  {
    match a
    case MaybeStart(t) => StartLowersCost(s, t);
    case Take(_) => TakeLowersCost(s, exit);
    case _ => WorkerLowersCost(s, a, exit);
  }

  /** The step, not a push, that can be taken next, if there is one. */
  function NextInternal(s: State, reply: Reply): Option<Action>
    requires OneWorker(s)
  {
    if |s.workers| == 0 then None
    else
      match s.workers[0]
      case Looking => Some(Take(0))
      case HasBatch(_) => Some(ReadToken(0))
      case HasToken(_, _) => Some(Send(0))
      case Awaiting(_, _) => Some(Respond(0, reply))
      case Acking(_) => Some(Acknowledge(0))
      case FailAcking(_) => Some(Acknowledge(0))
      case Draining => Some(Drain(0))
      case Leaving => Some(Leave(0))
  }

  lemma QuietAndInOrder(s: State)
    requires OneWorker(s) && InOrder(s)
    requires forall w :: w in s.workers && w.Awaiting? ==> w.call < |s.calls|
    requires forall a: Action :: Enabled(s, a) ==> a.Push?
    ensures Complete(s) || Stranded(s)
    ensures Complete(s) ==> |s.answered| == |s.accepted|
  {
    if t :| t in s.starting {
      assert Enabled(s, MaybeStart(t));
    }
    var a := NextInternal(s, Refused);
    if a.Some? {
      assert Enabled(s, a.value);
    }
  }

  /**
   If no step other than a push is possible, everything is answered and `wait_for_queue_completion`
   returns, unless an update is stranded.
   */
  lemma QuietMeansComplete(init: string, s: State)
    requires Inv(init, s)
    requires forall a: Action :: Enabled(s, a) ==> a.Push?
    ensures Complete(s) || Stranded(s)
    ensures Complete(s) ==> |s.answered| == |s.accepted|
  {
    QuietAndInOrder(s);
  }

  /** The further steps are possible one after the other, and none is a push. */
  predicate Possible(init: string, steps: seq<Action>, more: seq<Action>, exit: Exit) {
    more == [] ||
    var front, last := more[..|more| - 1], more[|more| - 1];
    Possible(init, steps, front, exit) && !last.Push? && Enabled(After(init, steps + front, exit), last)
  }

  lemma OneMoreStep(init: string, steps: seq<Action>, a: Action, exit: Exit)
    requires !a.Push? && Enabled(After(init, steps, exit), a)
    ensures Cost(After(init, steps + [a], exit)) < Cost(After(init, steps, exit))
  {
    assert (steps + [a])[..|steps|] == steps;
    EveryRunKeepsInv(init, steps, exit);
    StepsLowerCost(After(init, steps, exit), a, exit);
  }

  /** From any reachable state at most `Cost` further steps can be taken if nobody pushes. */
  lemma {:induction false} FurtherStepsAreBounded(init: string, steps: seq<Action>, more: seq<Action>, exit: Exit)
    requires Possible(init, steps, more, exit)
    ensures |more| + Cost(After(init, steps + more, exit)) <= Cost(After(init, steps, exit))
  {
    if more == [] {
      assert steps + more == steps;
    } else {
      var front, last := more[..|more| - 1], more[|more| - 1];
      FurtherStepsAreBounded(init, steps, front, exit);
      assert steps + more == (steps + front) + [last];
      OneMoreStep(init, steps + front, last, exit);
    }
  }

  /**
   `wait_for_queue_completion` cannot wait forever once nobody pushes: the steps left are
   bounded (above), and when none is left the queue is complete with every accepted update
   answered, or, for the code as it is, an update is stranded.
   */
  lemma {:induction false} WaitingEnds(init: string, steps: seq<Action>, exit: Exit)
    requires forall a: Action :: Enabled(After(init, steps, exit), a) ==> a.Push?
    ensures var s := After(init, steps, exit);
            (Complete(s) && |s.answered| == |s.accepted|) || (exit == TwoSteps && Stranded(s))
  {
    EveryRunKeepsInv(init, steps, exit);
    QuietMeansComplete(init, After(init, steps, exit));
    if exit == OneStep {
      OneStepExitNeverStrands(init, steps);
    }
  }

  // ----- The trace that strands an update -----

  /** A producer pushes between the worker's empty test and the clearing of its flag. */
  function StrandingTrace(u: OperationUpdate, v: OperationUpdate): seq<Action> {
    [Push(u), MaybeStart(0), Take(0), ReadToken(0), Send(0), Respond(0, Accepted(None)),
     Acknowledge(0), Acknowledge(0), Take(0), Push(v), MaybeStart(1), Leave(0)]
  }

  function Pair(s: State, a: Action, b: Action): State {
    Next(Next(s, a, TwoSteps), b, TwoSteps)
  }

  lemma TwoMore(init: string, steps: seq<Action>, a: Action, b: Action, s: State, t: State)
    requires After(init, steps, TwoSteps) == s && Pair(s, a, b) == t
    ensures After(init, steps + [a, b], TwoSteps) == t
  {
    assert (steps + [a, b])[..|steps| + 1] == steps + [a] && (steps + [a])[..|steps|] == steps;
  }

  /** The trace, two steps at a time. */
  function Stage(k: nat, init: string, u: OperationUpdate, v: OperationUpdate): State {
    var q := [Queued(0, u)];
    var c := ServiceCall(init, [u], Some(Accepted(None)));
    match k
    case 0 => Init(init)
    case 1 => State(q, true, [Looking], init, {}, [u], [], [], false)
    case 2 => State([], true, [HasToken(q, init)], init, {}, [u], [], [], false)
    case 3 => State([], true, [Acking(q)], init, {}, [u], [], [c], false)
    case 4 => State([], true, [Looking], init, {}, [u], [0], [c], false)
    case 5 => State([Queued(1, v)], true, [Leaving], init, {1}, [u, v], [0], [c], false)
    case _ => State([Queued(1, v)], false, [], init, {}, [u, v], [0], [c], false)
  }

  lemma Stage1(init: string, u: OperationUpdate, v: OperationUpdate)
    ensures Pair(Stage(0, init, u, v), Push(u), MaybeStart(0)) == Stage(1, init, u, v)
  {
  }

  lemma Stage2(init: string, u: OperationUpdate, v: OperationUpdate)
    ensures Pair(Stage(1, init, u, v), Take(0), ReadToken(0)) == Stage(2, init, u, v)
  {
    var q := [Queued(0, u)];
    assert q[..1] == q && q[1..] == [];
  }

  lemma Stage3(init: string, u: OperationUpdate, v: OperationUpdate)
    ensures Pair(Stage(2, init, u, v), Send(0), Respond(0, Accepted(None))) == Stage(3, init, u, v)
  {
    assert Updates([Queued(0, u)]) == [u] && !Conflict([u]);
  }

  lemma Stage4(init: string, u: OperationUpdate, v: OperationUpdate)
    ensures Pair(Stage(3, init, u, v), Acknowledge(0), Acknowledge(0)) == Stage(4, init, u, v)
  {
  }

  lemma Stage5(init: string, u: OperationUpdate, v: OperationUpdate)
    ensures Pair(Stage(4, init, u, v), Take(0), Push(v)) == Stage(5, init, u, v)
  {
  }

  lemma Stage6(init: string, u: OperationUpdate, v: OperationUpdate)
    ensures Pair(Stage(5, init, u, v), MaybeStart(1), Leave(0)) == Stage(6, init, u, v)
  {
    assert {1} - {1} == {};
  }

  lemma {:induction false} StageStep(k: nat, init: string, u: OperationUpdate, v: OperationUpdate)
    requires 1 <= k <= 6
    ensures var t := StrandingTrace(u, v);
            Pair(Stage(k - 1, init, u, v), t[2 * k - 2], t[2 * k - 1]) == Stage(k, init, u, v)
  {
    match k
    case 1 => Stage1(init, u, v);
    case 2 => Stage2(init, u, v);
    case 3 => Stage3(init, u, v);
    case 4 => Stage4(init, u, v);
    case 5 => Stage5(init, u, v);
    case _ => Stage6(init, u, v);
  }

  lemma TwoMoreOf(init: string, t: seq<Action>, k: nat, before: State, after: State)
    requires 0 < 2 * k <= |t|
    requires After(init, t[..2 * (k - 1)], TwoSteps) == before && Pair(before, t[2 * k - 2], t[2 * k - 1]) == after
    ensures After(init, t[..2 * k], TwoSteps) == after
  {
    var a, b := t[2 * k - 2], t[2 * k - 1];
    TwoMore(init, t[..2 * k - 2], a, b, before, after);
    assert t[..2 * k - 2] + [a, b] == t[..2 * k];
  }

  /** After `2 * k` steps the trace has reached stage `k`. */
  lemma {:induction false} TraceReachesStage(k: nat, init: string, u: OperationUpdate, v: OperationUpdate)
    requires k <= 6
    ensures After(init, StrandingTrace(u, v)[..2 * k], TwoSteps) == Stage(k, init, u, v)
  {
    if k > 0 {
      TraceReachesStage(k - 1, init, u, v);
      StageStep(k, init, u, v);
      TwoMoreOf(init, StrandingTrace(u, v), k, Stage(k - 1, init, u, v), Stage(k, init, u, v));
    }
  }

  /** As the code is, an update can stay queued with nobody left to send it and its producer waiting. */
  lemma TwoStepExitCanStrand(init: string, u: OperationUpdate, v: OperationUpdate)
    ensures var s := After(init, StrandingTrace(u, v), TwoSteps);
            Stranded(s) && !s.processing && s.workers == [] && s.queue == [Queued(1, v)] && s.answered == [0]
  {
    TraceReachesStage(6, init, u, v);
    assert StrandingTrace(u, v)[..12] == StrandingTrace(u, v);
  }
}
