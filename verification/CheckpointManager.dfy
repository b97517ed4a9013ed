/**
 `CheckpointManager` as the class it is in the SDK: producers push to its queue, and the
 worker's loop takes, sends and answers batches.  Between any two of the worker's critical
 sections other producers may push updates and try to start a worker.  The loop is proved to
 be a run of the atomic steps of `CheckpointQueue`, so what holds of every interleaving holds
 of it.
 */
module CheckpointManager {
  import opened Wrappers
  import opened OperationUpdates
  import Coalesce
  import opened Batching
  import opened CheckpointQueue

  /** The steps taken one after the other from a given state. */
  function RunFrom(s: State, steps: seq<Action>): State {
    if steps == [] then s
    else Next(RunFrom(s, steps[..|steps| - 1]), steps[|steps| - 1], TwoSteps)
  }

  lemma RunAppends(s: State, steps: seq<Action>, a: Action)
    ensures RunFrom(s, steps + [a]) == Next(RunFrom(s, steps), a, TwoSteps)
  {
    assert (steps + [a])[..|steps|] == steps;
  }

  lemma {:induction false} RunConcat(s: State, a: seq<Action>, b: seq<Action>)
    ensures RunFrom(s, a + b) == RunFrom(RunFrom(s, a), b)
  {
    if b == [] {
      assert a + b == a;
    } else {
      var front, last := b[..|b| - 1], b[|b| - 1];
      assert a + b == (a + front) + [last];
      RunConcat(s, a, front);
      RunAppends(s, a + front, last);
    }
  }

  /** A run is a run from the first state of the interleaving too. */
  lemma {:induction false} RunContinuesAfter(token: string, before: seq<Action>, steps: seq<Action>)
    ensures RunFrom(After(token, before, TwoSteps), steps) == After(token, before + steps, TwoSteps)
  {
    if steps == [] {
      assert before + steps == before;
    } else {
      var front, last := steps[..|steps| - 1], steps[|steps| - 1];
      RunContinuesAfter(token, before, front);
      assert before + steps == (before + front) + [last];
      assert ((before + front) + [last])[..|before + front|] == before + front;
    }
  }

  lemma DropOneMore<T>(s: seq<T>, i: nat)
    requires i < |s|
    ensures s[i..] != [] && s[i..][0] == s[i] && s[i..][1..] == s[i + 1..]
  {
  }

  // ----- The atomic steps of the one worker -----

  function AfterSend(s: State, batch: seq<Queued>, token: string): State {
    if Coalesce.Conflict(Updates(batch)) then s.(failed := true, workers := [FailAcking(batch)])
    else s.(calls := s.calls + [ServiceCall(token, Updates(batch), None)], workers := [Awaiting(batch, |s.calls|)])
  }

  lemma SendIsStep(s: State, batch: seq<Queued>, token: string)
    requires s.workers == [HasToken(batch, token)]
    ensures Next(s, Send(0), TwoSteps) == AfterSend(s, batch, token)
  {
  }

  lemma TakeIsStep(s: State)
    requires s.workers == [Looking]
    ensures Next(s, Take(0), TwoSteps)
         == if s.queue == [] then s.(workers := [Leaving])
            else
              var k := BatchLength(Updates(s.queue));
              s.(queue := s.queue[k..], workers := [HasBatch(s.queue[..k])])
  {
  }

  function Answering(batch: seq<Queued>, ok: bool): Worker {
    if ok then Acking(batch) else FailAcking(batch)
  }

  lemma AcknowledgeIsStep(s: State, batch: seq<Queued>, ok: bool)
    requires s.workers == [Answering(batch, ok)]
    ensures Next(s, Acknowledge(0), TwoSteps)
         == if batch == [] then s.(workers := [if ok then Looking else Draining])
            else s.(answered := s.answered + [batch[0].ticket], workers := [Answering(batch[1..], ok)])
  {
  }

  lemma DrainIsStep(s: State)
    requires s.workers == [Draining]
    ensures Next(s, Drain(0), TwoSteps)
         == s.(answered := s.answered + Tickets(s.queue), queue := [], workers := [Leaving])
  {
  }

  lemma LeaveIsStep(s: State)
    requires s.workers == [Leaving]
    ensures Next(s, Leave(0), TwoSteps) == s.(workers := [], processing := false)
  {
  }

  class CheckpointManager {
    var queue: seq<Queued>
    var isProcessing: bool
    var checkpointToken: string
    var failed: bool
    // The history of the queue and of the calls made.
    var accepted: seq<OperationUpdate>
    var answered: seq<nat>
    var calls: seq<ServiceCall>
    // What is under way: producers between their push and their attempt to start a worker, the
    // updates that producers have yet to push, and where the worker stands.
    var starting: set<nat>
    var others: seq<OperationUpdate>
    ghost var workers: seq<Worker>

    constructor (token: string, others: seq<OperationUpdate>)
      ensures View() == Init(token) && this.others == others
    {
      queue, isProcessing, checkpointToken, failed := [], false, token, false;
      accepted, answered, calls := [], [], [];
      starting, this.others, workers := {}, others, [];
    }

    /** The shared state. */
    ghost function View(): State
      reads this
    {
      State(queue, isProcessing, workers, checkpointToken, starting, accepted, answered, calls, failed)
    }

    /** Nothing happened to the queue but pushes, and they used up updates that were yet to come. */
    twostate predicate OnlyPushes()
      reads this
    {
      && isProcessing == old(isProcessing)
      && |queue| - |old(queue)| == |accepted| - |old(accepted)| >= 0
      && |others| <= |old(others)|
      && (|others| == |old(others)| ==> queue == old(queue))
    }

    /** The push of `checkpoint` and `checkpoint_queued`. */
    method Enqueue(update: OperationUpdate) returns (ticket: nat)
      modifies this
      ensures ticket == |old(accepted)| && View() == PushStep(old(View()), update)
      ensures workers == old(workers) && others == old(others)
    {
      ticket := |accepted|;
      queue := queue + [Queued(ticket, update)];
      accepted := accepted + [update];
      starting := starting + {ticket};
    }

    method MaybeStartProcessing(ticket: nat) returns (spawned: bool)
      modifies this
      ensures spawned == !old(isProcessing) && View() == StartStep(old(View()), ticket)
      ensures others == old(others)
    {
      starting := starting - {ticket};
      if isProcessing {
        return false;
      }
      isProcessing := true;
      workers := workers + [Looking];
      spawned := true;
    }

    /** Any number of producers push, and try to start a worker, while one is running. */
    method Others() returns (ghost steps: seq<Action>)
      requires isProcessing
      modifies this
      ensures View() == RunFrom(old(View()), steps)
      ensures workers == old(workers) && OnlyPushes()
      ensures checkpointToken == old(checkpointToken) && calls == old(calls) && answered == old(answered)
    {
      ghost var s0 := View();
      steps := [];
      while *
        invariant View() == RunFrom(s0, steps) && isProcessing && workers == old(workers)
        invariant |queue| - |old(queue)| == |accepted| - |old(accepted)| >= 0
        invariant |others| <= |old(others)| && (|others| == |old(others)| ==> queue == old(queue))
        invariant checkpointToken == old(checkpointToken) && calls == old(calls) && answered == old(answered)
        decreases |others|, |starting|
      {
        if * {
          if others == [] {
            break;
          }
          var update := others[0];
          RunAppends(s0, steps, Push(update));
          steps := steps + [Push(update)];
          others := others[1..];
          var pushed := Enqueue(update);
        } else {
          if starting == {} {
            break;
          }
          var ticket :| ticket in starting;
          RunAppends(s0, steps, MaybeStart(ticket));
          steps := steps + [MaybeStart(ticket)];
          var spawned := MaybeStartProcessing(ticket);
        }
      }
    }

    /** The greedy loop that fills a batch, under the queue's lock. */
    method BuildBatch() returns (batch: seq<Queued>)
      requires queue != []
      modifies this`queue
      ensures var k := BatchLength(Updates(old(queue)));
              batch == old(queue)[..k] && queue == old(queue)[k..]
    {
      ghost var whole := queue;
      batch := [];
      var currentSize: nat := BASE_OVERHEAD;
      while queue != [] && (batch == [] || currentSize + EstimateUpdateSize(queue[0].update) <= MAX_PAYLOAD_SIZE)
        invariant |batch| <= |whole| && batch == whole[..|batch|] && queue == whole[|batch|..]
        invariant TakeFrom(Updates(whole), |batch|, currentSize) == BatchLength(Updates(whole))
        decreases |queue|
      {
        var checkpoint := queue[0];
        TakeOneMore(whole, |batch|);
        DropOneMore(whole, |batch|);
        queue := queue[1..];
        currentSize := currentSize + EstimateUpdateSize(checkpoint.update);
        batch := batch + [checkpoint];
      }
    }

    /** Takes a batch; an empty one means that the queue was seen empty. */
    method TakeBatch() returns (batch: seq<Queued>, ghost steps: seq<Action>)
      requires isProcessing && workers == [Looking]
      modifies this
      ensures View() == RunFrom(old(View()), steps) && isProcessing
      ensures workers == if batch == [] then [Leaving] else [HasBatch(batch)]
      ensures batch == [] ==> queue == []
      ensures |others| <= |old(others)| && |accepted| >= |old(accepted)|
      ensures batch != [] && |others| == |old(others)| ==> |queue| < |old(queue)|
    {
      ghost var s0 := View();
      steps := Others();
      TakeIsStep(View());
      RunAppends(s0, steps, Take(0));
      steps := steps + [Take(0)];
      batch := [];
      if queue == [] {
        workers := [Leaving];
      } else {
        BatchIsLongest(Updates(queue));
        batch := BuildBatch();
        workers := [HasBatch(batch)];
      }
    }

    method ReadToken(ghost batch: seq<Queued>) returns (token: string, ghost steps: seq<Action>)
      requires isProcessing && workers == [HasBatch(batch)]
      modifies this
      ensures View() == RunFrom(old(View()), steps) && OnlyPushes()
      ensures workers == [HasToken(batch, token)]
    {
      ghost var s0 := View();
      steps := Others();
      RunAppends(s0, steps, CheckpointQueue.ReadToken(0));
      steps := steps + [CheckpointQueue.ReadToken(0)];
      token := checkpointToken;
      workers := [HasToken(batch, token)];
    }

    /** Coalesces the batch and starts the call, if its updates agree. */
    method SendBatch(batch: seq<Queued>, token: string) returns (sent: bool, ghost steps: seq<Action>)
      requires isProcessing && workers == [HasToken(batch, token)]
      modifies this
      ensures View() == RunFrom(old(View()), steps) && OnlyPushes()
      ensures if sent then calls != [] && workers == [Awaiting(batch, |calls| - 1)] else workers == [FailAcking(batch)]
    {
      ghost var s0 := View();
      steps := Others();
      SendIsStep(View(), batch, token);
      RunAppends(s0, steps, Send(0));
      steps := steps + [Send(0)];
      var updates := Updates(batch);
      var coalesced, warned := Coalesce.CoalesceUpdates(updates);
      if coalesced.Err? {
        failed := true;
        workers := [FailAcking(batch)];
        return false, steps;
      }
      sent := true;
      calls := calls + [ServiceCall(token, updates, None)];
      workers := [Awaiting(batch, |calls| - 1)];
    }

    /** Receives the service's answer to the call in progress and keeps its new token. */
    method ReceiveReply(ghost batch: seq<Queued>, reply: Reply) returns (ok: bool, ghost steps: seq<Action>)
      requires isProcessing && calls != [] && workers == [Awaiting(batch, |calls| - 1)]
      modifies this
      ensures View() == RunFrom(old(View()), steps) && OnlyPushes()
      ensures workers == [Answering(batch, ok)]
    {
      ghost var s0 := View();
      steps := Others();
      RunAppends(s0, steps, Respond(0, reply));
      steps := steps + [Respond(0, reply)];
      calls := calls[|calls| - 1 := calls[|calls| - 1].(reply := Some(reply))];
      match reply {
        case Accepted(newToken) =>
          if newToken.Some? {
            checkpointToken := newToken.value;
          }
          ok := true;
        case Refused =>
          failed := true;
          ok := false;
      }
      workers := [Answering(batch, ok)];
    }

    /** Token, coalescing, call and new token; `reply` is the service's answer. */
    method ProcessBatch(batch: seq<Queued>, reply: Reply) returns (ok: bool, ghost steps: seq<Action>)
      requires isProcessing && workers == [HasBatch(batch)]
      modifies this
      ensures View() == RunFrom(old(View()), steps) && OnlyPushes()
      ensures workers == [Answering(batch, ok)]
    {
      ghost var s0 := View();
      var token, sent;
      ghost var more;
      token, steps := ReadToken(batch);
      sent, more := SendBatch(batch, token);
      RunConcat(s0, steps, more);
      steps := steps + more;
      ok := false;
      if sent {
        ok, more := ReceiveReply(batch, reply);
        RunConcat(s0, steps, more);
        steps := steps + more;
      }
    }

    /** Notifies one waiter; after the last, the worker moves on. */
    method NotifyOne(rest: seq<Queued>, ok: bool) returns (ghost steps: seq<Action>)
      requires isProcessing && workers == [Answering(rest, ok)]
      modifies this
      ensures View() == RunFrom(old(View()), steps) && OnlyPushes()
      ensures workers == if rest == [] then [if ok then Looking else Draining] else [Answering(rest[1..], ok)]
    {
      ghost var s0 := View();
      steps := Others();
      AcknowledgeIsStep(View(), rest, ok);
      RunAppends(s0, steps, Acknowledge(0));
      steps := steps + [Acknowledge(0)];
      if rest == [] {
        workers := [if ok then Looking else Draining];
      } else {
        answered := answered + [rest[0].ticket];
        workers := [Answering(rest[1..], ok)];
      }
    }

    method NotifyBatch(batch: seq<Queued>, ok: bool) returns (ghost steps: seq<Action>)
      requires isProcessing && workers == [Answering(batch, ok)]
      modifies this
      ensures View() == RunFrom(old(View()), steps) && OnlyPushes()
      ensures workers == [if ok then Looking else Draining]
    {
      ghost var s0 := View();
      steps := [];
      var rest := batch;
      ghost var more;
      while rest != []
        invariant View() == RunFrom(s0, steps) && OnlyPushes() && workers == [Answering(rest, ok)]
        decreases |rest|
      {
        more := NotifyOne(rest, ok);
        RunConcat(s0, steps, more);
        steps := steps + more;
        rest := rest[1..];
      }
      more := NotifyOne([], ok);
      RunConcat(s0, steps, more);
      steps := steps + more;
    }

    /** After a failed batch, under the queue's lock: everything still queued is answered too. */
    method DrainQueue() returns (ghost steps: seq<Action>)
      requires isProcessing && workers == [Draining]
      modifies this
      ensures View() == RunFrom(old(View()), steps) && isProcessing && workers == [Leaving] && queue == []
      ensures |others| <= |old(others)| && |accepted| >= |old(accepted)|
    {
      ghost var s0 := View();
      steps := Others();
      DrainIsStep(View());
      RunAppends(s0, steps, Drain(0));
      steps := steps + [Drain(0)];
      answered := answered + Tickets(queue);
      queue := [];
      workers := [Leaving];
    }

    /** One round of the worker's loop; `running` says whether it goes on. */
    method ProcessRound(reply: Reply) returns (running: bool, ghost steps: seq<Action>)
      requires isProcessing && workers == [Looking]
      modifies this
      ensures View() == RunFrom(old(View()), steps) && isProcessing
      ensures workers == [if running then Looking else Leaving]
      ensures !running ==> queue == []
      ensures |others| <= |old(others)| && |accepted| >= |old(accepted)|
      ensures running && |others| == |old(others)| ==> |queue| < |old(queue)|
    {
      ghost var s0 := View();
      ghost var more;
      var batch, ok;
      batch, steps := TakeBatch();
      if batch == [] {
        return false, steps;
      }
      ok, more := ProcessBatch(batch, reply);
      RunConcat(s0, steps, more);
      steps := steps + more;
      more := NotifyBatch(batch, ok);
      RunConcat(s0, steps, more);
      steps := steps + more;
      if !ok {
        more := DrainQueue();
        RunConcat(s0, steps, more);
        steps := steps + more;
      }
      running := ok;
    }

    /**
     The worker's loop, with producers pushing at any time; `replies` are the service's answers.
     Whatever they push, the loop ends, and it is a run of the atomic steps from a worker that is
     looking at the queue to one that is gone.  What is left in the queue was pushed after the
     worker had seen it empty, or had emptied it.
     */
    method ProcessQueue(replies: nat -> Reply) returns (ghost steps: seq<Action>)
      requires isProcessing && workers == [Looking]
      modifies this
      ensures View() == RunFrom(old(View()), steps)
      ensures workers == [] && !isProcessing
      ensures |queue| <= |accepted| - |old(accepted)|
    {
      ghost var s0 := View();
      ghost var more;
      steps := [];
      var running := true;
      while running
        invariant View() == RunFrom(s0, steps) && isProcessing
        invariant workers == [if running then Looking else Leaving]
        invariant |accepted| >= |old(accepted)| && (!running ==> queue == [])
        decreases |others|, |queue|, running
      {
        running, more := ProcessRound(replies(|calls|));
        RunConcat(s0, steps, more);
        steps := steps + more;
      }
      more := Others();
      RunConcat(s0, steps, more);
      steps := steps + more;
      LeaveIsStep(View());
      RunAppends(s0, steps, Leave(0));
      steps := steps + [Leave(0)];
      isProcessing := false;
      workers := [];
    }
  }

  /** Without a worker, the queue is what follows the answered updates. */
  lemma IdleIsAnswered(token: string, steps: seq<Action>, s: State)
    requires s == After(token, steps, TwoSteps) && s.workers == []
    ensures |s.answered| == |s.accepted| - |s.queue|
    ensures forall i :: 0 <= i < |s.answered| ==> s.answered[i] == i
  {
    EveryRunKeepsInv(token, steps, TwoSteps);
  }

  /**
   A loop started in a reachable state ends in a reachable one, so every guarantee of the queue
   holds of it.  All that had been accepted when it started is answered, in order.
   */
  method RunWorker(m: CheckpointManager, replies: nat -> Reply, ghost token: string, ghost before: seq<Action>)
    returns (ghost all: seq<Action>)
    requires m.isProcessing && m.workers == [Looking] && m.View() == After(token, before, TwoSteps)
    modifies m
    ensures before <= all && m.View() == After(token, all, TwoSteps)
    ensures m.workers == [] && |m.answered| == |m.accepted| - |m.queue| >= |old(m.accepted)|
    ensures forall i :: 0 <= i < |m.answered| ==> m.answered[i] == i
  {
    ghost var steps := m.ProcessQueue(replies);
    RunContinuesAfter(token, before, steps);
    all := before + steps;
    IdleIsAnswered(token, all, m.View());
  }
}
