/**
 The checkpoint queue as atomic steps over shared state: producers push updates and may start
 a worker; workers take batches, send them and answer the producers.  Any number of workers
 could exist in this state space; that there is at most one is proved.
 */
module CheckpointQueue {
  import opened Wrappers
  import opened OperationUpdates
  import opened Coalesce
  import opened Batching

  /** A queued update; its ticket is its place in the order in which updates were accepted. */
  datatype Queued = Queued(ticket: nat, update: OperationUpdate)

  datatype Reply = Accepted(newToken: Option<string>) | Refused

  /** One call of the service: the token it carried, the batch it was made from, and its reply. */
  datatype ServiceCall = ServiceCall(token: string, batch: seq<OperationUpdate>, reply: Option<Reply>)

  /** Where a worker stands in `process_queue`. */
  datatype Worker =
    | Looking
    | HasBatch(batch: seq<Queued>)
    | HasToken(batch: seq<Queued>, token: string)
    | Awaiting(batch: seq<Queued>, call: nat)
    | Acking(batch: seq<Queued>)
    | FailAcking(batch: seq<Queued>)
    | Draining
    | Leaving

  /**
   `starting` holds the tickets whose producer has pushed and not yet tried to start a worker;
   `accepted`, `answered` and `calls` are histories; `failed` says that a batch has failed.
   */
  datatype State = State(
    queue: seq<Queued>,
    processing: bool,
    workers: seq<Worker>,
    token: string,
    starting: set<nat>,
    accepted: seq<OperationUpdate>,
    answered: seq<nat>,
    calls: seq<ServiceCall>,
    failed: bool)

  function Init(token: string): State {
    State([], false, [], token, {}, [], [], [], false)
  }

  /** Whether a worker leaves in the step that finds or makes the queue empty, or later, as in the code. */
  datatype Exit = OneStep | TwoSteps

  datatype Action =
    | Push(u: OperationUpdate)
    | MaybeStart(ticket: nat)
    | Take(w: nat)
    | ReadToken(w: nat)
    | Send(w: nat)
    | Respond(w: nat, reply: Reply)
    | Acknowledge(w: nat)
    | Drain(w: nat)
    | Leave(w: nat)

  function Updates(qs: seq<Queued>): (us: seq<OperationUpdate>)
    ensures |us| == |qs|
    ensures forall i :: 0 <= i < |qs| ==> us[i] == qs[i].update
  {
    seq(|qs|, i requires 0 <= i < |qs| => qs[i].update)
  }

  function Tickets(qs: seq<Queued>): (ts: seq<nat>)
    ensures |ts| == |qs|
    ensures forall i :: 0 <= i < |qs| ==> ts[i] == qs[i].ticket
  {
    seq(|qs|, i requires 0 <= i < |qs| => qs[i].ticket)
  }

  predicate Enabled(s: State, a: Action) {
    match a
    case Push(_) => true
    case MaybeStart(t) => t in s.starting
    case Take(w) => w < |s.workers| && s.workers[w] == Looking
    case ReadToken(w) => w < |s.workers| && s.workers[w].HasBatch?
    case Send(w) => w < |s.workers| && s.workers[w].HasToken?
    case Respond(w, _) => w < |s.workers| && s.workers[w].Awaiting? && s.workers[w].call < |s.calls|
    case Acknowledge(w) => w < |s.workers| && (s.workers[w].Acking? || s.workers[w].FailAcking?)
    case Drain(w) => w < |s.workers| && s.workers[w] == Draining
    case Leave(w) => w < |s.workers| && s.workers[w] == Leaving
  }

  function SetWorker(s: State, w: nat, pc: Worker): State
    requires w < |s.workers|
  {
    s.(workers := s.workers[w := pc])
  }

  function Gone(s: State, w: nat): State
    requires w < |s.workers|
  {
    s.(workers := s.workers[..w] + s.workers[w + 1..], processing := false)
  }

  /** A worker ends its loop: it still has to clear the flag, or does so at once. */
  function Exits(s: State, w: nat, exit: Exit): State
    requires w < |s.workers|
  {
    if exit == TwoSteps then SetWorker(s, w, Leaving) else Gone(s, w)
  }

  function PushStep(s: State, u: OperationUpdate): State {
    var ticket := |s.accepted|;
    s.(queue := s.queue + [Queued(ticket, u)], accepted := s.accepted + [u], starting := s.starting + {ticket})
  }

  function StartStep(s: State, t: nat): State {
    var s' := s.(starting := s.starting - {t});
    if s.processing then s' else s'.(processing := true, workers := s.workers + [Looking])
  }

  function TakeStep(s: State, w: nat, exit: Exit): State
    requires w < |s.workers|
  {
    if s.queue == [] then Exits(s, w, exit)
    else
      var k := BatchLength(Updates(s.queue));
      SetWorker(s.(queue := s.queue[k..]), w, HasBatch(s.queue[..k]))
  }

  /** A batch whose updates disagree about a type fails without a call. */
  function SendStep(s: State, w: nat): State
    requires w < |s.workers| && s.workers[w].HasToken?
  {
    var batch := s.workers[w].batch;
    if Conflict(Updates(batch)) then SetWorker(s.(failed := true), w, FailAcking(batch))
    else
      SetWorker(s.(calls := s.calls + [ServiceCall(s.workers[w].token, Updates(batch), None)]),
                w, Awaiting(batch, |s.calls|))
  }

  function RespondStep(s: State, w: nat, reply: Reply): State
    requires w < |s.workers| && s.workers[w].Awaiting? && s.workers[w].call < |s.calls|
  {
    var batch, i := s.workers[w].batch, s.workers[w].call;
    var s' := s.(calls := s.calls[i := s.calls[i].(reply := Some(reply))]);
    match reply
    case Accepted(newToken) => SetWorker(s'.(token := newToken.GetOr(s.token)), w, Acking(batch))
    case Refused => SetWorker(s'.(failed := true), w, FailAcking(batch))
  }

  /** One waiter of the batch is notified; after the last the worker moves on. */
  function AcknowledgeStep(s: State, w: nat): State
    requires w < |s.workers| && (s.workers[w].Acking? || s.workers[w].FailAcking?)
  {
    var pc := s.workers[w];
    if pc.batch == [] then SetWorker(s, w, if pc.Acking? then Looking else Draining)
    else SetWorker(s.(answered := s.answered + [pc.batch[0].ticket]), w, pc.(batch := pc.batch[1..]))
  }

  /** One atomic step; a step that is not enabled changes nothing. */
  function Next(s: State, a: Action, exit: Exit): State {
    if !Enabled(s, a) then s
    else
      match a
      case Push(u) => PushStep(s, u)
      case MaybeStart(t) => StartStep(s, t)
      case Take(w) => TakeStep(s, w, exit)
      case ReadToken(w) => SetWorker(s, w, HasToken(s.workers[w].batch, s.token))
      case Send(w) => SendStep(s, w)
      case Respond(w, reply) => RespondStep(s, w, reply)
      case Acknowledge(w) => AcknowledgeStep(s, w)
      case Drain(w) => Exits(s.(answered := s.answered + Tickets(s.queue), queue := []), w, exit)
      case Leave(w) => Gone(s, w)
  }

  function After(token: string, steps: seq<Action>, exit: Exit): State {
    if steps == [] then Init(token)
    else Next(After(token, steps[..|steps| - 1], exit), steps[|steps| - 1], exit)
  }

  // ----- The invariant -----

  /** The part of a worker's batch that has no answer yet. */
  function InHand(w: Worker): seq<Queued> {
    match w
    case HasBatch(b) => b
    case HasToken(b, _) => b
    case Awaiting(b, _) => b
    case Acking(b) => b
    case FailAcking(b) => b
    case _ => []
  }

  predicate IsUnsent(w: Worker) {
    w.HasBatch? || w.HasToken?
  }

  /** What is in flight, when there is at most one worker, followed by what is queued. */
  function Line(s: State): seq<Queued> {
    if |s.workers| == 1 then InHand(s.workers[0]) + s.queue else s.queue
  }

  /** How many accepted updates no call has carried yet, when no batch has failed. */
  function NotSent(s: State): nat {
    if |s.workers| == 1 && IsUnsent(s.workers[0]) then |Line(s)| else |s.queue|
  }

  predicate OneWorker(s: State) {
    |s.workers| == if s.processing then 1 else 0
  }

  ghost predicate LineOk(answered: seq<nat>, line: seq<Queued>, accepted: seq<OperationUpdate>) {
    && |answered| + |line| == |accepted|
    && (forall i :: 0 <= i < |answered| ==> answered[i] == i)
    && (forall i :: 0 <= i < |line| ==> line[i] == Queued(|answered| + i, accepted[|answered| + i]))
  }

  /**
   Answered, in flight and queued are, in this order, all accepted updates in the order of
   acceptance: each is in exactly one of the three, and is answered once.
   */
  ghost predicate InOrder(s: State) {
    LineOk(s.answered, Line(s), s.accepted) && forall t :: t in s.starting ==> t < |s.accepted|
  }

  /** The token that follows a call. */
  function TokenAfter(c: ServiceCall): string {
    match c.reply
    case Some(Accepted(Some(t))) => t
    case _ => c.token
  }

  function LastToken(init: string, calls: seq<ServiceCall>): string {
    if calls == [] then init else TokenAfter(calls[|calls| - 1])
  }

  /** Each call carries the token left by the one before it. */
  ghost predicate TokenChain(init: string, calls: seq<ServiceCall>) {
    forall i :: 0 <= i < |calls| ==> calls[i].token == LastToken(init, calls[..i])
  }

  predicate TokensOk(init: string, s: State) {
    && s.token == LastToken(init, s.calls)
    && (|s.workers| == 1 && s.workers[0].HasToken? ==> s.workers[0].token == s.token)
    && (|s.workers| == 1 && s.workers[0].Awaiting? ==>
          s.calls != [] && s.workers[0].call == |s.calls| - 1 && s.calls[|s.calls| - 1].reply == None)
  }

  function SentBatches(calls: seq<ServiceCall>): (bs: seq<seq<OperationUpdate>>)
    ensures |bs| == |calls|
    ensures forall i :: 0 <= i < |calls| ==> bs[i] == calls[i].batch
  {
    seq(|calls|, i requires 0 <= i < |calls| => calls[i].batch)
  }

  /** Until a batch fails, the sent batches concatenate to the front of the accept order. */
  ghost predicate SentPrefix(s: State) {
    && (!s.failed ==>
          && NotSent(s) <= |s.accepted|
          && Concat(SentBatches(s.calls)) == s.accepted[..|s.accepted| - NotSent(s)])
    && (|s.workers| == 1 && (s.workers[0].FailAcking? || s.workers[0].Draining?) ==> s.failed)
    && (forall c :: c in s.calls ==> !Conflict(c.batch) && (c.reply == Some(Refused) ==> s.failed))
  }

  ghost predicate Inv(init: string, s: State) {
    OneWorker(s) && InOrder(s) && TokensOk(init, s) && TokenChain(init, s.calls) && SentPrefix(s)
  }

  // ----- Every step keeps the invariant -----

  lemma InitInv(token: string)
    ensures Inv(token, Init(token))
  {
  }

  lemma OneWorkerStep(s: State, a: Action, exit: Exit)
    requires OneWorker(s)
    ensures OneWorker(Next(s, a, exit))
  {
  }

  lemma AnswerNext(answered: seq<nat>, line: seq<Queued>, accepted: seq<OperationUpdate>)
    requires LineOk(answered, line, accepted) && line != []
    ensures LineOk(answered + [line[0].ticket], line[1..], accepted)
  {
  }

  lemma AnswerAll(answered: seq<nat>, line: seq<Queued>, accepted: seq<OperationUpdate>)
    requires LineOk(answered, line, accepted)
    ensures LineOk(answered + Tickets(line), [], accepted)
  {
  }

  lemma InOrderPush(s: State, u: OperationUpdate)
    requires InOrder(s)
    ensures InOrder(PushStep(s, u)) && Line(PushStep(s, u)) == Line(s) + [Queued(|s.accepted|, u)]
  {
    assert Line(PushStep(s, u)) == Line(s) + [Queued(|s.accepted|, u)];
  }

  lemma InOrderTake(s: State, exit: Exit)
    requires OneWorker(s) && Enabled(s, Take(0))
    ensures Line(TakeStep(s, 0, exit)) == Line(s)
  {
    if s.queue != [] {
      var k := BatchLength(Updates(s.queue));
      assert s.queue[..k] + s.queue[k..] == s.queue;
    }
  }

  lemma InOrderAcknowledge(s: State)
    requires OneWorker(s) && InOrder(s) && Enabled(s, Acknowledge(0))
    ensures InOrder(AcknowledgeStep(s, 0))
  {
    var t := AcknowledgeStep(s, 0);
    if s.workers[0].batch == [] {
      assert Line(t) == Line(s);
    } else {
      assert Line(t) == Line(s)[1..];
      AnswerNext(s.answered, Line(s), s.accepted);
    }
  }

  lemma InOrderDrain(s: State, exit: Exit)
    requires OneWorker(s) && InOrder(s) && Enabled(s, Drain(0))
    ensures InOrder(Next(s, Drain(0), exit))
  {
    assert Line(s) == s.queue;
    assert Line(Next(s, Drain(0), exit)) == [];
    AnswerAll(s.answered, s.queue, s.accepted);
  }

  lemma StartIsQuiet(s: State, ticket: nat)
    requires OneWorker(s)
    ensures var t := StartStep(s, ticket);
            Line(t) == Line(s) && t.answered == s.answered && t.accepted == s.accepted && t.starting <= s.starting
  {
    if s.processing {
      assert s.workers == [s.workers[0]];
    } else {
      assert s.workers == [] && s.workers + [Looking] == [Looking];
    }
  }

  /** The other steps move nothing between queued, in flight and answered. */
  lemma QuietStep(s: State, a: Action, exit: Exit)
    requires OneWorker(s) && Enabled(s, a)
    requires a.MaybeStart? || a.Leave? || a.ReadToken? || a.Send? || a.Respond?
    ensures var t := Next(s, a, exit);
            Line(t) == Line(s) && t.answered == s.answered && t.accepted == s.accepted && t.starting <= s.starting
  {
    if a.MaybeStart? {
      StartIsQuiet(s, a.ticket);
    } else {
      assert s.workers == [s.workers[0]];
    }
  }

  lemma InOrderStep(s: State, a: Action, exit: Exit)
    requires OneWorker(s) && InOrder(s)
    ensures InOrder(Next(s, a, exit))
  {
    if Enabled(s, a) {
      match a
      case Push(u) => InOrderPush(s, u);
      case Take(w) => InOrderTake(s, exit);
      case Acknowledge(w) => InOrderAcknowledge(s);
      case Drain(w) => InOrderDrain(s, exit);
      case _ => QuietStep(s, a, exit);
    }
  }

  lemma ChainAppends(init: string, calls: seq<ServiceCall>, c: ServiceCall)
    requires TokenChain(init, calls) && c.token == LastToken(init, calls)
    ensures TokenChain(init, calls + [c])
  {
    var longer := calls + [c];
    forall i | 0 <= i < |longer|
      ensures longer[i].token == LastToken(init, longer[..i])
    {
      assert longer[..i] == calls[..i];
      assert calls[..|calls|] == calls;
    }
  }

  lemma ChainReplies(init: string, calls: seq<ServiceCall>, c: ServiceCall)
    requires TokenChain(init, calls) && calls != [] && c.token == calls[|calls| - 1].token
    ensures TokenChain(init, calls[|calls| - 1 := c])
  {
    var changed := calls[|calls| - 1 := c];
    forall i | 0 <= i < |changed|
      ensures changed[i].token == LastToken(init, changed[..i])
    {
      assert changed[..i] == calls[..i];
    }
  }

  lemma SendTokens(init: string, s: State)
    requires OneWorker(s) && TokensOk(init, s) && TokenChain(init, s.calls) && Enabled(s, Send(0))
    ensures TokensOk(init, SendStep(s, 0)) && TokenChain(init, SendStep(s, 0).calls)
  {
    ChainAppends(init, s.calls, ServiceCall(s.workers[0].token, Updates(s.workers[0].batch), None));
  }

  lemma RespondTokens(init: string, s: State, r: Reply)
    requires OneWorker(s) && TokensOk(init, s) && TokenChain(init, s.calls) && Enabled(s, Respond(0, r))
    ensures TokensOk(init, RespondStep(s, 0, r)) && TokenChain(init, RespondStep(s, 0, r).calls)
  {
    ChainReplies(init, s.calls, s.calls[|s.calls| - 1].(reply := Some(r)));
  }

  lemma QuietTokens(init: string, s: State, a: Action, exit: Exit)
    requires OneWorker(s) && TokensOk(init, s) && Enabled(s, a) && !a.Send? && !a.Respond?
    ensures TokensOk(init, Next(s, a, exit)) && Next(s, a, exit).calls == s.calls
  {
    if !a.Push? && !a.MaybeStart? {
      assert s.workers == [s.workers[0]];
    }
  }

  lemma TokensStep(init: string, s: State, a: Action, exit: Exit)
    requires OneWorker(s) && TokensOk(init, s) && TokenChain(init, s.calls)
    ensures TokensOk(init, Next(s, a, exit)) && TokenChain(init, Next(s, a, exit).calls)
  {
    if Enabled(s, a) {
      if a.Send? {
        SendTokens(init, s);
      } else if a.Respond? {
        RespondTokens(init, s, a.reply);
      } else {
        QuietTokens(init, s, a, exit);
      }
    }
  }

  lemma {:induction false} ConcatAppends(bs: seq<seq<OperationUpdate>>, b: seq<OperationUpdate>)
    ensures Concat(bs + [b]) == Concat(bs) + b
  {
    if bs == [] {
      assert [] + [b] == [b] && [b][1..] == [];
    } else {
      assert (bs + [b])[1..] == bs[1..] + [b];
      ConcatAppends(bs[1..], b);
    }
  }

  /** The batch in hand is what was accepted after the answered updates. */
  lemma BatchIsAccepted(s: State)
    requires OneWorker(s) && InOrder(s) && Enabled(s, Send(0))
    ensures var from, us := |s.answered|, Updates(s.workers[0].batch);
            from + |us| <= |s.accepted| && s.accepted[..from] + us == s.accepted[..from + |us|]
  {
    var batch := s.workers[0].batch;
    var from, us := |s.answered|, Updates(batch);
    forall i | 0 <= i < |batch|
      ensures us[i] == s.accepted[from + i]
    {
      assert Line(s)[i] == batch[i];
    }
  }

  lemma OneMoreSent(calls: seq<ServiceCall>, c: ServiceCall)
    ensures Concat(SentBatches(calls + [c])) == Concat(SentBatches(calls)) + c.batch
  {
    assert SentBatches(calls + [c]) == SentBatches(calls) + [c.batch];
    ConcatAppends(SentBatches(calls), c.batch);
  }

  /** How far the sent batches reach before and after a call is started. */
  lemma SendCounts(s: State)
    requires OneWorker(s) && InOrder(s) && Enabled(s, Send(0)) && !Conflict(Updates(s.workers[0].batch))
    ensures |s.accepted| - NotSent(s) == |s.answered|
    ensures |s.accepted| - NotSent(SendStep(s, 0)) == |s.answered| + |s.workers[0].batch|
  {
  }

  lemma SentCall(s: State)
    requires OneWorker(s) && InOrder(s) && SentPrefix(s) && Enabled(s, Send(0)) && !s.failed
    requires !Conflict(Updates(s.workers[0].batch))
    ensures var t := SendStep(s, 0);
            && NotSent(t) <= |t.accepted|
            && Concat(SentBatches(t.calls)) == t.accepted[..|t.accepted| - NotSent(t)]
  {
    SendCounts(s);
    BatchIsAccepted(s);
    OneMoreSent(s.calls, ServiceCall(s.workers[0].token, Updates(s.workers[0].batch), None));
  }

  lemma SentSend(s: State)
    requires OneWorker(s) && InOrder(s) && SentPrefix(s) && Enabled(s, Send(0))
    ensures SentPrefix(SendStep(s, 0))
  {
    if !Conflict(Updates(s.workers[0].batch)) && !s.failed {
      SentCall(s);
    }
  }

  lemma SentRespond(init: string, s: State, r: Reply)
    requires OneWorker(s) && TokensOk(init, s) && SentPrefix(s) && Enabled(s, Respond(0, r))
    ensures SentPrefix(RespondStep(s, 0, r))
  {
    var t := RespondStep(s, 0, r);
    assert SentBatches(t.calls) == SentBatches(s.calls);
    forall c | c in t.calls
      ensures !Conflict(c.batch) && (c.reply == Some(Refused) ==> t.failed)
    {
      var i :| 0 <= i < |t.calls| && t.calls[i] == c;
      assert s.calls[i] in s.calls;
    }
  }

  lemma SentPush(s: State, u: OperationUpdate)
    requires InOrder(s) && SentPrefix(s)
    ensures SentPrefix(PushStep(s, u))
  {
    InOrderPush(s, u);
    if !s.failed {
      var n := |s.accepted| - NotSent(s);
      assert (s.accepted + [u])[..n] == s.accepted[..n];
    }
  }

  lemma SentTake(s: State, exit: Exit)
    requires OneWorker(s) && InOrder(s) && SentPrefix(s) && Enabled(s, Take(0))
    ensures SentPrefix(TakeStep(s, 0, exit))
  {
    InOrderTake(s, exit);
  }

  lemma SentStart(s: State, ticket: nat)
    requires OneWorker(s) && SentPrefix(s)
    ensures SentPrefix(StartStep(s, ticket))
  {
    StartIsQuiet(s, ticket);
    if !s.processing {
      assert s.workers == [] && StartStep(s, ticket).workers == [Looking];
    }
  }

  lemma SentQuiet(s: State, a: Action, exit: Exit)
    requires OneWorker(s) && SentPrefix(s) && Enabled(s, a)
    requires a.MaybeStart? || a.ReadToken? || a.Acknowledge? || a.Drain? || a.Leave?
    ensures SentPrefix(Next(s, a, exit))
  {
    if a.MaybeStart? {
      SentStart(s, a.ticket);
    } else {
      assert s.workers == [s.workers[0]];
      assert !s.failed ==> NotSent(Next(s, a, exit)) == NotSent(s);
    }
  }

  lemma SentStep(init: string, s: State, a: Action, exit: Exit)
    requires OneWorker(s) && InOrder(s) && TokensOk(init, s) && SentPrefix(s)
    ensures SentPrefix(Next(s, a, exit))
  {
    if Enabled(s, a) {
      match a
      case Push(u) => SentPush(s, u);
      case Take(w) => SentTake(s, exit);
      case Send(w) => SentSend(s);
      case Respond(w, r) => SentRespond(init, s, r);
      case _ => SentQuiet(s, a, exit);
    }
  }

  lemma InvStep(init: string, s: State, a: Action, exit: Exit)
    requires Inv(init, s)
    ensures Inv(init, Next(s, a, exit))
  {
    OneWorkerStep(s, a, exit);
    InOrderStep(s, a, exit);
    TokensStep(init, s, a, exit);
    SentStep(init, s, a, exit);
  }

  /** The invariant holds in every interleaving, with either way of leaving. */
  lemma {:induction false} EveryRunKeepsInv(init: string, steps: seq<Action>, exit: Exit)
    ensures Inv(init, After(init, steps, exit))
  {
    if steps == [] {
      InitInv(init);
    } else {
      EveryRunKeepsInv(init, steps[..|steps| - 1], exit);
      InvStep(init, After(init, steps[..|steps| - 1], exit), steps[|steps| - 1], exit);
    }
  }
}
