/**
 The engine's records under the checkpoint queue: what coalescing merges of one operation's
 updates within an invocation leaves the same record as sending them one by one.
 */
module EngineBackend {
  import opened Wrappers
  import opened Operations
  import ReplayEngine
  import OperationUpdates
  import Coalesce
  import opened Batching
  import Queue = CheckpointQueue

  type Update = OperationUpdates.OperationUpdate

  function KindOf(t: OperationUpdates.OperationType): Kind {
    match t
    case Step => StepKind
    case Wait => WaitKind
    case _ => ContextKind
  }

  function ActionOf(a: OperationUpdates.OperationAction): Action
    requires a != OperationUpdates.Cancel
  {
    match a
    case Start => Start
    case Succeed => Succeed
    case Fail => Fail
    case Retry => Retry
  }

  /** What the engine's records keep of an update. */
  function AsWrite(u: Update): Write
    requires u.action != OperationUpdates.Cancel
  {
    Write(KindOf(u.operationType), ActionOf(u.action), u.payload,
          if u.error.Some? then Some(u.error.value.errorMessage) else None,
          u.contextOptions.Some? && u.contextOptions.value.replayChildren == Some(true))
  }

  /** The update that carries a write: its kind and action, payload, message, and the order to run children again. */
  function UpdateFor(id: string, w: Write): Update {
    var options := if w.replayChildren then Some(OperationUpdates.ContextUpdateOptions(Some(true))) else None;
    var error := if w.error.Some? then Some(OperationUpdates.ErrorObject("Error", w.error.value, None)) else None;
    OperationUpdates.OperationUpdate(
      id, None, None,
      match w.kind case StepKind => OperationUpdates.Step case WaitKind => OperationUpdates.Wait case ContextKind => OperationUpdates.Context,
      None,
      match w.action
      case Start => OperationUpdates.Start
      case Succeed => OperationUpdates.Succeed
      case Fail => OperationUpdates.Fail
      case Retry => OperationUpdates.Retry,
      w.payload, error, options, None, None, None, None)
  }

  /** The engine's records take from an update just what was put into it. */
  lemma UpdateCarriesWrite(id: string, w: Write)
    ensures AsWrite(UpdateFor(id, w)) == w
  {
  }

  /** An update that says nothing but that an operation starts. */
  predicate BareStart(w: Write) {
    w.action == Start && w.payload.None? && w.error.None? && !w.replayChildren
  }

  /** A START disappears in whatever update of the same operation follows it in its batch. */
  lemma StartIsAbsorbed(r: Option<Record>, u: Update, v: Update)
    requires u.id == v.id && u.operationType == v.operationType
    requires u.action == OperationUpdates.Start && v.action != OperationUpdates.Cancel
    requires u.payload.None? && u.error.None? && u.contextOptions.None?
    ensures ApplyWrite(Some(ApplyWrite(r, AsWrite(u))), AsWrite(v)) == ApplyWrite(r, AsWrite(Coalesce.Merge(u, v)))
  {
    assert AsWrite(Coalesce.Merge(u, v)) == AsWrite(v);
  }

  /** Two RETRYs merged into one would be counted once. */
  lemma RetriesDoNotMerge(r: Option<Record>, u: Update, v: Update)
    requires u.id == v.id && u.operationType == v.operationType
    requires u.action == v.action == OperationUpdates.Retry
    ensures ApplyWrite(Some(ApplyWrite(r, AsWrite(u))), AsWrite(v)).attempt
         != ApplyWrite(r, AsWrite(Coalesce.Merge(u, v))).attempt
  {
    var once := ApplyWrite(r, AsWrite(Coalesce.Merge(u, v))).attempt;
    assert ApplyWrite(Some(ApplyWrite(r, AsWrite(u))), AsWrite(v)).attempt == Some(once.value + 1);
  }

  lemma StepSendsMergeableUpdates(
      cfg: StepConfig, rec: Option<Record>, path: Path, env: Env, body: BodyResult, i: nat, j: nat)
    requires var es := StepPlan(rec, cfg, path, env, body).effects;
             i < j < |es| && es[i].Persist? && es[j].Persist?
    ensures var es := StepPlan(rec, cfg, path, env, body).effects;
            BareStart(es[i].w) && es[j].w.action != Start && es[j].w.kind == es[i].w.kind
  {
    var es := StepPlan(rec, cfg, path, env, body).effects;
    assert es == StepExecution(rec, cfg, path, env, body).effects;
    assert es[..|es| - 1] == BeginStep(rec, cfg.semantics, body.startStored);
    assert i < j == 2 && |es| == 3;
  }

  /**
   Of two updates that one call of an operation sends, the first is a bare START: so no batch
   can merge anything of the call but a START into what follows.
   */
  lemma CallsSendMergeableUpdates(
      leaf: ReplayEngine.Leaf, rec: Option<Record>, path: Path, env: Env, body: BodyResult, i: nat, j: nat)
    requires var es := ReplayEngine.LeafPlan(leaf, rec, path, env, body).effects;
             i < j < |es| && es[i].Persist? && es[j].Persist?
    ensures var es := ReplayEngine.LeafPlan(leaf, rec, path, env, body).effects;
            BareStart(es[i].w) && es[j].w.action != Start && es[j].w.kind == es[i].w.kind
  {
    match leaf
    case StepLeaf(cfg) => StepSendsMergeableUpdates(cfg, rec, path, env, body, i, j);
    case PollLeaf(_) =>
    case WaitLeaf(_) =>
  }

  // ----- Whole batches -----

  /** The engine's store as a backend of the queue. */
  function RecordAfter(r: Option<Record>, u: Update): Record {
    if u.action == OperationUpdates.Cancel then r.GetOr(Record(KindOf(u.operationType), Unknown, None, None, None, false))
    else ApplyWrite(r, AsWrite(u))
  }

  /** The updates of one operation in a batch: at most one, or a bare START and another. */
  predicate AtMostOneCall(mine: seq<Update>) {
    || |mine| <= 1
    || (|mine| == 2
        && mine[0].action == OperationUpdates.Start && mine[1].action != OperationUpdates.Cancel
        && mine[0].payload.None? && mine[0].error.None? && mine[0].contextOptions.None?)
  }

  lemma OneCallMergesAlong(mine: seq<Update>)
    requires AtMostOneCall(mine) && OneOperation(mine)
    ensures MergesAlong(RecordAfter, mine)
  {
    forall k, r: Option<Record> | 0 < k < |mine|
      ensures MergesAt(RecordAfter, mine, k, r)
    {
      assert mine[..1] == [mine[0]] && mine[..2] == [mine[0]] + [mine[1]];
      Coalesce.MergeAppends([mine[0]], mine[1]);
      StartIsAbsorbed(r, mine[0], mine[1]);
    }
  }

  lemma OneCallEachCoalesces(us: seq<Update>)
    requires !Coalesce.Conflict(us) && forall id :: AtMostOneCall(Coalesce.OfId(us, id))
    ensures CoalescesUnnoticed(RecordAfter, us)
  {
    forall id
      ensures MergesAlong(RecordAfter, Coalesce.OfId(us, id))
    {
      OneOperationOfId(us, id);
      OneCallMergesAlong(Coalesce.OfId(us, id));
    }
  }

  /**
   The queue under the engine: batches in which each operation has the updates of at most one
   call, coalesced and sent in order, leave the records that applying every update singly leaves.
   */
  lemma QueueRefinesEngine(store: map<string, Record>, bs: seq<seq<Update>>)
    requires forall b :: b in bs ==> !Coalesce.Conflict(b) && forall id :: AtMostOneCall(Coalesce.OfId(b, id))
    ensures WriteBatches(RecordAfter, store, bs) == WriteAll(RecordAfter, store, Concat(bs))
  {
    forall b | b in bs
      ensures CoalescesUnnoticed(RecordAfter, b)
    {
      OneCallEachCoalesces(b);
    }
    UnnoticedBatches(RecordAfter, store, bs);
  }

  lemma {:induction false} PartOfConcat(bs: seq<seq<Update>>, b: seq<Update>) returns (before: seq<Update>, behind: seq<Update>)
    requires b in bs
    ensures Concat(bs) == before + b + behind
  {
    if b == bs[0] {
      before, behind := [], Concat(bs[1..]);
    } else {
      assert b in bs[1..];
      before, behind := PartOfConcat(bs[1..], b);
      before := bs[0] + before;
    }
  }

  /** A part of an operation's updates has the updates of at most one call if the whole has. */
  lemma PartOfOneCall(before: seq<Update>, b: seq<Update>, behind: seq<Update>, id: string)
    requires AtMostOneCall(Coalesce.OfId(before + b + behind, id))
    ensures AtMostOneCall(Coalesce.OfId(b, id))
  {
    Coalesce.ConcatOfId(before + b, behind, id);
    Coalesce.ConcatOfId(before, b, id);
  }

  lemma SentBatchCoalesces(bs: seq<seq<Update>>, b: seq<Update>, accepted: seq<Update>, n: nat)
    requires n <= |accepted| && Concat(bs) == accepted[..n] && b in bs && !Coalesce.Conflict(b)
    requires forall id :: AtMostOneCall(Coalesce.OfId(accepted, id))
    ensures CoalescesUnnoticed(RecordAfter, b)
  {
    var before, behind := PartOfConcat(bs, b);
    assert accepted == before + b + (behind + accepted[n..]);
    forall id
      ensures AtMostOneCall(Coalesce.OfId(b, id))
    {
      PartOfOneCall(before, b, behind + accepted[n..], id);
    }
    OneCallEachCoalesces(b);
  }

  lemma SentPrefixIsEngine(store: map<string, Record>, s: Queue.State)
    requires Queue.SentPrefix(s) && !s.failed
    requires forall id :: AtMostOneCall(Coalesce.OfId(s.accepted, id))
    ensures Queue.NotSent(s) <= |s.accepted|
    ensures WriteBatches(RecordAfter, store, Queue.SentBatches(s.calls))
         == WriteAll(RecordAfter, store, s.accepted[..|s.accepted| - Queue.NotSent(s)])
  {
    var bs := Queue.SentBatches(s.calls);
    var n := |s.accepted| - Queue.NotSent(s);
    forall b | b in bs
      ensures CoalescesUnnoticed(RecordAfter, b)
    {
      var i :| 0 <= i < |bs| && bs[i] == b;
      assert s.calls[i] in s.calls;
      SentBatchCoalesces(bs, b, s.accepted, n);
    }
    UnnoticedBatches(RecordAfter, store, bs);
  }

  /**
   The engine's store behind the queue, from the records an invocation starts with and in every
   interleaving.  If each operation's accepted updates are those of at most one call, then until
   a batch fails the coalesced batches leave the records that the engine's writes, one by one in
   the order of acceptance, leave.
   */
  lemma EngineSeesAcceptedPrefix(
      store: map<string, Record>, init: string, steps: seq<Queue.Action>, exit: Queue.Exit, s: Queue.State)
    requires s == Queue.After(init, steps, exit) && !s.failed
    requires forall id :: AtMostOneCall(Coalesce.OfId(s.accepted, id))
    ensures Queue.NotSent(s) <= |s.accepted|
    ensures WriteBatches(RecordAfter, store, Queue.SentBatches(s.calls))
         == WriteAll(RecordAfter, store, s.accepted[..|s.accepted| - Queue.NotSent(s)])
  {
    Queue.EveryRunKeepsInv(init, steps, exit);
    SentPrefixIsEngine(store, s);
  }
}
