/**
 How a finished map or parallel operation is recorded, and what a replay makes of the
 record: the batch itself when its payload was small enough to store, and a reconstruction
 from the children's records when only a summary was stored.
 */
module BatchReplay {
  import opened Wrappers
  import opened Operations
  import opened Batches
  import opened BatchSerdes
  import Engine = ReplayEngine
  import ReplayCorrectness
  import ReplayRuns

  datatype Flavour = Map | Parallel

  function TypeTag(f: Flavour): string {
    match f
    case Map => "MapResult"
    case Parallel => "ParallelResult"
  }

  function DefaultName(f: Flavour): string {
    match f
    case Map => "map"
    case Parallel => "parallel"
  }

  // ----- The record of a finished batch -----

  /** `map_summary_payload` and `parallel_summary_payload`. */
  function SummaryPayload(
      f: Flavour, total: nat, successes: nat, failures: nat, started: nat, reason: CompletionReason): Json
  {
    JObject(map["type" := JString(TypeTag(f)),
                "totalCount" := JNumber(total),
                "successCount" := JNumber(successes),
                "failureCount" := JNumber(failures),
                "completionReason" := JString(ReasonText(reason)),
                "status" := JString(if failures > 0 then "FAILED" else "SUCCEEDED")]
          + (if f == Parallel then map["startedCount" := JNumber(started)] else map[]))
  }

  function SummaryJson(f: Flavour, p: Progress, reason: CompletionReason): Json {
    SummaryPayload(f, |p|, SuccessCount(p), FailureCount(p), |p| - CompletedCount(p), reason)
  }

  /** Whether the payload of a batch is too big to store. */
  predicate TooBig(b: BatchResult, c: JsonCodec) {
    |Serialize(b, c)| > Engine.CHECKPOINT_SIZE_LIMIT_BYTES
  }

  /** The update that completes a batch whose children are as `p` says. */
  function CompletionWrite(f: Flavour, p: Progress, b: BatchResult, c: JsonCodec): Write {
    if TooBig(b, c) then Write(ContextKind, Succeed, Some(c.toText(SummaryJson(f, p, b.reason))), None, true)
    else Write(ContextKind, Succeed, Some(Serialize(b, c)), None, false)
  }

  /** The record of a batch: its document, if that takes at most 256 KB, or a summary and the order to ask the children. */
  lemma BatchRecordSays(f: Flavour, p: Progress, b: BatchResult, c: JsonCodec, prior: Option<Record>)
    ensures var rec := ApplyWrite(prior, CompletionWrite(f, p, b, c));
            && rec.status == Succeeded && rec.kind == ContextKind
            && (if |Serialize(b, c)| <= 262_144 then rec.result == Some(Serialize(b, c)) && !rec.replayChildren
                else rec.result == Some(c.toText(SummaryJson(f, p, b.reason))) && rec.replayChildren)
  {
  }

  // ----- What a replay makes of it -----

  /** `Halt` ends the invocation: the payload could not be deserialised. */
  datatype ReplayDecision =
    | Rejected(e: DurableError)
    | ReturnBatch(b: BatchResult)
    | Reconstruct(totalCount: nat)
    | Continue
    | Halt

  predicate IsSummary(f: Flavour, j: Option<Json>) {
    && j.Some? && j.value.JObject?
    && AsString(Field(j.value, "kind")) != Some(BATCH_RESULT_KIND)
    && (AsString(Field(j.value, "type")) == Some(TypeTag(f)) || Field(j.value, "totalCount").Some?)
  }

  /** One more than the largest index. */
  function TargetCount(all: seq<BatchItem>): nat {
    if all == [] then 0
    else Max(TargetCount(all[..|all| - 1]), all[|all| - 1].index + 1)
  }

  lemma {:induction false} TargetIsBound(all: seq<BatchItem>)
    ensures forall i :: 0 <= i < |all| ==> all[i].index < TargetCount(all)
    ensures if all == [] then TargetCount(all) == 0 else exists i :: 0 <= i < |all| && all[i].index + 1 == TargetCount(all)
  {
    if all != [] {
      var front, last := all[..|all| - 1], all[|all| - 1];
      TargetIsBound(front);
      assert forall i :: 0 <= i < |front| ==> front[i] == all[i];
      if last.index + 1 >= TargetCount(front) {
        assert all[|all| - 1].index + 1 == TargetCount(all);
      } else {
        var i :| 0 <= i < |front| && front[i].index + 1 == TargetCount(front);
        assert all[i].index + 1 == TargetCount(all);
      }
    }
  }

  function EvaluatePayload(f: Flavour, payload: string, count: nat, c: JsonCodec): ReplayDecision {
    var j := c.fromText(payload);
    if IsSummary(f, j) then
      match AsNat(Field(j.value, "totalCount"))
      case None => Continue
      case Some(t) => if t > count then Rejected(ReplayValidationFailed(TooManyItems(count, t))) else Reconstruct(t)
    else
      match DeserializeSpec(payload, c)
      case Err(_) => Halt
      case Ok(b) =>
        var t := TargetCount(b.all);
        if t > count then Rejected(ReplayValidationFailed(TooManyItems(count, t))) else ReturnBatch(b)
  }

  /** `count` is the number of items the handler passes this time. */
  function EvaluateBatch(f: Flavour, name: Option<string>, rec: Option<Record>, count: nat, c: JsonCodec): ReplayDecision {
    if rec.None? then Continue
    else
      match rec.value.status
      case Failed =>
        Rejected(BatchOperationFailed(name.GetOr(DefaultName(f)), rec.value.error.GetOr("Batch operation failed")))
      case Succeeded =>
        (match rec.value.result
         case None => Continue
         case Some(payload) => EvaluatePayload(f, payload, count, c))
      case _ => Continue
  }

  /** A record that does not complete a batch has it run again; a failed one is raised with its text. */
  lemma OtherRecordsRead(f: Flavour, name: Option<string>, rec: Record, count: nat, c: JsonCodec)
    ensures EvaluateBatch(f, name, None, count, c) == Continue
    ensures !Final(rec) ==> EvaluateBatch(f, name, Some(rec), count, c) == Continue
    ensures rec.status == Succeeded && rec.result.None? ==> EvaluateBatch(f, name, Some(rec), count, c) == Continue
    ensures rec.status == Failed ==>
              var called := if name.Some? then name.value else if f == Map then "map" else "parallel";
              EvaluateBatch(f, name, Some(rec), count, c)
                == Rejected(BatchOperationFailed(called, rec.error.GetOr("Batch operation failed")))
  {
    assert f == Map ==> DefaultName(f) == "map";
    assert f == Parallel ==> DefaultName(f) == "parallel";
  }

  /** A payload that cannot be read ends the invocation; a summary without a usable total has the batch run again. */
  lemma OtherPayloadsRead(f: Flavour, payload: string, count: nat, c: JsonCodec)
    ensures c.fromText(payload).None? ==> EvaluatePayload(f, payload, count, c) == Halt
    ensures IsSummary(f, c.fromText(payload)) && AsNat(Field(c.fromText(payload).value, "totalCount")).None? ==>
              EvaluatePayload(f, payload, count, c) == Continue
  {
  }

  /** Which documents are taken for summaries: objects that are no batch, with the right type or any total. */
  lemma SummariesExactly(f: Flavour, j: Json)
    ensures IsSummary(f, Some(j))
       <==> && j.JObject?
            && !("kind" in j.fields && j.fields["kind"] == JString("BatchResult"))
            && (("type" in j.fields && j.fields["type"] == JString(if f == Map then "MapResult" else "ParallelResult"))
                || "totalCount" in j.fields)
  {
    assert f == Map ==> TypeTag(f) == "MapResult";
    assert f == Parallel ==> TypeTag(f) == "ParallelResult";
  }

  /** The operation numbers, after the batch's own, that a replay uses up. */
  function Consumed(d: ReplayDecision): nat {
    match d
    case ReturnBatch(b) => TargetCount(b.all)
    case Reconstruct(t) => t
    case _ => 0
  }

  lemma SummaryKeys()
    ensures forall key :: key in ["type", "successCount", "failureCount", "completionReason", "status", "startedCount"] ==>
              key != "totalCount" && key != "kind"
    ensures "totalCount" != "kind"
  {
    assert "totalCount"[1] == 'o' && "kind"[0] == 'k';
    assert "type"[1] == 'y' && "successCount"[0] == 's' && "failureCount"[0] == 'f';
    assert "completionReason"[0] == 'c' && "status"[0] == 's' && "startedCount"[0] == 's';
  }

  lemma SummaryKeysDiffer()
    ensures "type" != "successCount" && "type" != "failureCount" && "type" != "completionReason" && "type" != "status"
    ensures "type" != "startedCount" && "successCount" != "failureCount" && "successCount" != "completionReason"
    ensures "successCount" != "status" && "successCount" != "startedCount" && "failureCount" != "completionReason"
    ensures "failureCount" != "status" && "failureCount" != "startedCount" && "completionReason" != "status"
    ensures "completionReason" != "startedCount" && "status" != "startedCount"
    ensures "totalCount" != "type" && "totalCount" != "successCount" && "totalCount" != "failureCount"
    ensures "totalCount" != "completionReason" && "totalCount" != "status" && "totalCount" != "startedCount"
  {
    assert "totalCount"[0] == 't' && "totalCount"[1] == 'o' && "type"[1] == 'y';
    assert "type"[0] == 't' && "failureCount"[0] == 'f' && "completionReason"[0] == 'c';
    assert "successCount"[0] == 's' && "status"[0] == 's' && "startedCount"[0] == 's';
    assert "successCount"[1] == 'u' && "status"[1] == 't' && "startedCount"[1] == 't';
    assert "status"[4] == 'u' && "startedCount"[4] == 't';
  }

  lemma SummaryIsRecognised(f: Flavour, p: Progress, reason: CompletionReason)
    ensures var j := SummaryJson(f, p, reason);
            IsSummary(f, Some(j)) && Field(j, "totalCount") == Some(JNumber(|p|))
  {
    var j := SummaryJson(f, p, reason);
    SummaryKeys();
    assert Field(j, "kind") == None;
    assert Field(j, "totalCount") == Some(JNumber(|p|));
  }

  /** How many items have this status. */
  function Having(all: seq<BatchItem>, status: ItemStatus): nat {
    if all == [] then 0
    else Having(all[..|all| - 1], status) + if all[|all| - 1].status == status then 1 else 0
  }

  lemma {:induction false} CountsAreOfItems(p: Progress)
    ensures Having(ItemsOf(p), ItemSucceeded) == SuccessCount(p)
    ensures Having(ItemsOf(p), ItemFailed) == FailureCount(p)
    ensures Having(ItemsOf(p), ItemStarted) == |p| - CompletedCount(p)
  {
    if p != [] {
      var n := |p| - 1;
      assert ItemsOf(p)[..n] == ItemsOf(p[..n]);
      CountsAreOfItems(p[..n]);
    }
  }

  /** What can be read from a summary: of which operation it is, and its counts. */
  lemma SummaryCounts(f: Flavour, total: nat, successes: nat, failures: nat, started: nat, reason: CompletionReason)
    ensures var j := SummaryPayload(f, total, successes, failures, started, reason);
            && Field(j, "type") == Some(JString(if f == Map then "MapResult" else "ParallelResult"))
            && Field(j, "totalCount") == Some(JNumber(total))
            && Field(j, "successCount") == Some(JNumber(successes))
            && Field(j, "failureCount") == Some(JNumber(failures))
  {
    SummaryKeysDiffer();
    assert f == Map ==> TypeTag(f) == "MapResult";
    assert f == Parallel ==> TypeTag(f) == "ParallelResult";
  }

  /** Why the batch was complete, whether any item failed, and, for `parallel` alone, how many were in flight. */
  lemma SummaryStatus(f: Flavour, total: nat, successes: nat, failures: nat, started: nat, reason: CompletionReason)
    ensures var j := SummaryPayload(f, total, successes, failures, started, reason);
            && Field(j, "startedCount") == (if f == Map then None else Some(JNumber(started)))
            && Field(j, "completionReason") == Some(JString(ReasonText(reason)))
            && Field(j, "status") == Some(JString(if failures > 0 then "FAILED" else "SUCCEEDED"))
  {
    SummaryKeysDiffer();
  }

  /** The summary of a batch counts its items, and those of each status. */
  lemma {:induction false} SummaryCountsItems(f: Flavour, p: Progress, total: nat, cfg: CompletionConfig)
    ensures var b := BatchOf(p, total, cfg);
            var ok, failed, open := Having(b.all, ItemSucceeded), Having(b.all, ItemFailed), Having(b.all, ItemStarted);
            SummaryJson(f, p, b.reason) == SummaryPayload(f, |b.all|, ok, failed, open, b.reason)
  {
    assert BatchOf(p, total, cfg).all == ItemsOf(p);
    CountsAreOfItems(p);
  }

  lemma FullPayloadIsNoSummary(f: Flavour, b: BatchResult, c: JsonCodec)
    ensures !IsSummary(f, Some(PayloadJson(PayloadOf(b, c), c)))
  {
    PayloadFields(PayloadOf(b, c), c);
  }

  lemma {:induction false} TargetOfFilled(s: seq<BatchItem>)
    requires forall i :: 0 <= i < |s| ==> s[i].index == i
    ensures TargetCount(s) == |s|
  {
    if s != [] {
      TargetOfFilled(s[..|s| - 1]);
    }
  }

  /** A batch that ran is already in order, so its normal form keeps its items in place. */
  lemma NormalOfBatch(p: Progress, total: nat, cfg: CompletionConfig, c: JsonCodec)
    ensures var b := BatchOf(p, total, cfg);
            Normal(b, c) == BatchResult(NormalItems(b.all, c), b.reason) && TargetCount(Normal(b, c).all) == |p|
  {
    var items := NormalItems(BatchOf(p, total, cfg).all, c);
    assert forall i :: 0 <= i < |items| ==> items[i].index == i;
    OrderedIsSorted(items);
    TargetOfFilled(items);
  }

  lemma {:induction false} PayloadIsUnderstood(
      f: Flavour, p: Progress, total: nat, cfg: CompletionConfig, count: nat, c: JsonCodec)
    requires Faithful(c)
    ensures var b := BatchOf(p, total, cfg);
            EvaluatePayload(f, CompletionWrite(f, p, b, c).payload.value, count, c)
              == if |p| > count then Rejected(ReplayValidationFailed(TooManyItems(count, |p|)))
                 else if TooBig(b, c) then Reconstruct(|p|)
                 else ReturnBatch(Normal(b, c))
  {
    var b := BatchOf(p, total, cfg);
    if TooBig(b, c) {
      SummaryIsRecognised(f, p, b.reason);
    } else {
      FullPayloadIsNoSummary(f, b, c);
      DecodesToNormalForm(b, c);
      NormalOfBatch(p, total, cfg, c);
    }
  }

  lemma SucceededIsEvaluated(f: Flavour, name: Option<string>, prior: Option<Record>, w: Write, count: nat, c: JsonCodec)
    requires w.action == Succeed && w.payload.Some?
    ensures EvaluateBatch(f, name, Some(ApplyWrite(prior, w)), count, c) == EvaluatePayload(f, w.payload.value, count, c)
  {
  }

  /**
   Counter agreement.  However a batch with `|p|` started children was recorded, and in whatever
   order they finished, a replay with at least as many items accepts the record and uses up
   exactly `|p|` operation numbers, as the execution did.  A replay with fewer is always refused.
   */
  lemma {:induction false} CounterAgreement(
      f: Flavour, name: Option<string>, prior: Option<Record>, p: Progress, total: nat, cfg: CompletionConfig, count: nat,
      c: JsonCodec)
    requires Faithful(c)
    ensures var b := BatchOf(p, total, cfg);
            var rec := ApplyWrite(prior, CompletionWrite(f, p, b, c));
            var d := EvaluateBatch(f, name, Some(rec), count, c);
            if |p| > count then d == Rejected(ReplayValidationFailed(TooManyItems(count, |p|)))
            else
              && Consumed(d) == |p|
              && d == (if TooBig(b, c) then Reconstruct(|p|) else ReturnBatch(Normal(b, c)))
  {
    SucceededIsEvaluated(f, name, prior, CompletionWrite(f, p, BatchOf(p, total, cfg), c), count, c);
    PayloadIsUnderstood(f, p, total, cfg, count, c);
    NormalOfBatch(p, total, cfg, c);
  }

  /**
   The batch read back from a full payload is the very batch that was returned exactly when no
   item failed with a structured error and no value prints as `null`.
   */
  lemma {:induction false} FullReplayIsExact(p: Progress, total: nat, cfg: CompletionConfig, c: JsonCodec)
    ensures Normal(BatchOf(p, total, cfg), c) == BatchOf(p, total, cfg)
       <==> forall i :: 0 <= i < |p| && p[i].Some? ==>
              if p[i].value.Ok? then c.toJson(p[i].value.value) != JNull else p[i].value.error.Internal?
  {
    var b := BatchOf(p, total, cfg);
    NormalOfBatch(p, total, cfg, c);
    var items := NormalItems(b.all, c);
    forall i | 0 <= i < |p|
      ensures items[i] == b.all[i]
         <==> (p[i].Some? ==> if p[i].value.Ok? then c.toJson(p[i].value.value) != JNull else p[i].value.error.Internal?)
    {
      NormalMeansPlain(b.all[i], c);
    }
    if Normal(b, c) == b {
      assert forall i :: 0 <= i < |p| ==> items[i] == b.all[i];
    }
  }

  // ----- Reconstruction from the children's records -----

  datatype ChildRead = Missing | NoOutput | Read(o: Option<Outcome>)

  /** What the execution of a batch knew of one child, and what a later replay finds of it. */
  datatype Child = Child(key: Path, ended: Option<Outcome>, prior: Option<Record>, found: Option<Record>, rerun: Outcome)

  /** `rerun` is what the child's code gives when it is run again to rebuild a value too big to store. */
  function ReadChild(rec: Option<Record>, key: Path, env: Env, rerun: Outcome): ChildRead {
    if rec.None? then Missing
    else
      match rec.value.status
      case Succeeded =>
        if rec.value.replayChildren then Read(Some(rerun))
        else if rec.value.result.Some? && env.decode(rec.value.result.value).Some? then
          Read(Some(Ok(env.decode(rec.value.result.value).value)))
        else NoOutput
      case Failed => Read(Some(Err(ChildContextFailed(key, rec.value.error.GetOr("Child context failed")))))
      case _ => Read(None)
  }

  /** What is read of a child, whoever wrote its record. */
  lemma ChildReadsExactly(rec: Option<Record>, key: Path, env: Env, rerun: Outcome)
    ensures var r := ReadChild(rec, key, env, rerun);
            && (r == Missing <==> rec.None?)
            && (r == Read(None) <==> rec.Some? && !Final(rec.value))
            && (rec.Some? && rec.value.status == Failed ==>
                  r == Read(Some(Err(ChildContextFailed(key, rec.value.error.GetOr("Child context failed"))))))
            && (rec.Some? && rec.value.status == Succeeded && rec.value.replayChildren ==> r == Read(Some(rerun)))
    ensures var r := ReadChild(rec, key, env, rerun);
            rec.Some? && rec.value.status == Succeeded && !rec.value.replayChildren ==>
              if rec.value.result.Some? && env.decode(rec.value.result.value).Some? then
                r == Read(Some(Ok(env.decode(rec.value.result.value).value)))
              else r == NoOutput
  {
  }

  /** The children's states, or the error of the first that cannot be read. */
  function Rebuild(rs: seq<ChildRead>): Result<Progress, DurableError> {
    if rs == [] then Ok([])
    else
      match Rebuild(rs[..|rs| - 1])
      case Err(e) => Err(e)
      case Ok(p) =>
        match rs[|rs| - 1]
        case Missing => Err(ReplayValidationFailed(MissingChild(|rs| - 1)))
        case NoOutput => Err(Internal("Missing child context output in replay"))
        case Read(o) => Ok(p + [o])
  }

  function Reconstructed(rs: seq<ChildRead>, total: nat, cfg: CompletionConfig): Result<BatchResult, DurableError> {
    match Rebuild(rs)
    case Err(e) => Err(e)
    case Ok(p) => Ok(BatchOf(p, total, cfg))
  }

  lemma {:induction false} RebuildIsPointwise(rs: seq<ChildRead>, p: Progress)
    ensures Rebuild(rs) == Ok(p) <==> |rs| == |p| && forall i :: 0 <= i < |p| ==> rs[i] == Read(p[i])
  {
    if rs == [] {
    } else if p != [] {
      var n := |rs| - 1;
      RebuildIsPointwise(rs[..n], p[..|p| - 1]);
      assert p == p[..|p| - 1] + [p[|p| - 1]];
      if Rebuild(rs) == Ok(p) {
        assert Rebuild(rs[..n]).value == p[..|p| - 1];
        assert forall i :: 0 <= i < n ==> rs[i] == rs[..n][i];
      }
    }
  }

  /** Reconstruction gives the batch of `p` exactly when every child is read as `p` has it. */
  lemma ReconstructsExactly(rs: seq<ChildRead>, p: Progress, total: nat, cfg: CompletionConfig)
    ensures Reconstructed(rs, total, cfg) == Ok(BatchOf(p, total, cfg))
       <==> |rs| == |p| && forall i :: 0 <= i < |p| ==> rs[i] == Read(p[i])
  {
    RebuildIsPointwise(rs, p);
    if Reconstructed(rs, total, cfg) == Ok(BatchOf(p, total, cfg)) {
      ItemsDetermineProgress(Rebuild(rs).value, p);
    }
  }

  /** The outcome of the child that the batch saw: its code's, with failures wrapped. */
  function SeenBy(ch: Child, env: Env): Option<Outcome> {
    if ch.ended.Some? then Some(Engine.ChildOutcome(ch.key, ch.ended.value, env)) else None
  }

  /** A child that completed recorded its end, and running its code again gives its value again. */
  predicate RecordsItsEnd(ch: Child, env: Env) {
    ch.ended.Some? ==>
      && ch.found == Some(ApplyWrite(ch.prior, Engine.ChildEnd(ch.ended.value, env)))
      && (ch.found.value.replayChildren ==> ch.rerun == ch.ended.value)
  }

  /** A child that was under way when the batch completed, and still is as far as the record says. */
  predicate StillOpen(ch: Child) {
    ch.ended.None? ==> ch.found.Some? && !Final(ch.found.value)
  }

  lemma ChildReadsBack(ch: Child, env: Env)
    requires CodecRoundTrips(env) && RecordsItsEnd(ch, env)
    ensures ReadChild(ch.found, ch.key, env, ch.rerun) == Read(SeenBy(ch, env)) <==> StillOpen(ch)
  {
  }

  function SeenAll(cs: seq<Child>, env: Env): (p: Progress)
    ensures |p| == |cs|
    ensures forall i :: 0 <= i < |cs| ==> p[i] == SeenBy(cs[i], env)
  {
    seq(|cs|, i requires 0 <= i < |cs| => SeenBy(cs[i], env))
  }

  function ReadAll(cs: seq<Child>, env: Env): (rs: seq<ChildRead>)
    ensures |rs| == |cs|
    ensures forall i :: 0 <= i < |cs| ==> rs[i] == ReadChild(cs[i].found, cs[i].key, env, cs[i].rerun)
  {
    seq(|cs|, i requires 0 <= i < |cs| => ReadChild(cs[i].found, cs[i].key, env, cs[i].rerun))
  }

  /**
   Reconstruction agrees with execution: items, values, errors and reason are the same, exactly
   when every child that was abandoned at completion has a record and that record is not final.
   */
  lemma ReconstructionAgreesExactly(cs: seq<Child>, total: nat, cfg: CompletionConfig, env: Env)
    requires CodecRoundTrips(env) && forall i :: 0 <= i < |cs| ==> RecordsItsEnd(cs[i], env)
    ensures Reconstructed(ReadAll(cs, env), total, cfg) == Ok(BatchOf(SeenAll(cs, env), total, cfg))
       <==> forall i :: 0 <= i < |cs| ==> StillOpen(cs[i])
  {
    ReconstructsExactly(ReadAll(cs, env), SeenAll(cs, env), total, cfg);
    forall i | 0 <= i < |cs|
      ensures ReadAll(cs, env)[i] == Read(SeenAll(cs, env)[i]) <==> StillOpen(cs[i])
    {
      ChildReadsBack(cs[i], env);
    }
  }

  lemma {:induction false} FirstErrorWins(rs: seq<ChildRead>, n: nat)
    requires n <= |rs| && Rebuild(rs[..n]).Err?
    ensures Rebuild(rs) == Rebuild(rs[..n])
  {
    if n == |rs| {
      assert rs[..n] == rs;
    } else {
      assert rs[..|rs| - 1][..n] == rs[..n];
      FirstErrorWins(rs[..|rs| - 1], n);
    }
  }

  /** An abandoned child that never sent its START makes the replay fail. */
  lemma {:induction false} UnrecordedChildFailsReplay(cs: seq<Child>, i: nat, total: nat, cfg: CompletionConfig, env: Env)
    requires CodecRoundTrips(env) && forall j :: 0 <= j < |cs| ==> RecordsItsEnd(cs[j], env)
    requires i < |cs| && cs[i].found.None?
    requires forall j :: 0 <= j < i ==> StillOpen(cs[j])
    ensures Reconstructed(ReadAll(cs, env), total, cfg) == Err(ReplayValidationFailed(MissingChild(i)))
  {
    var rs := ReadAll(cs, env);
    var p := SeenAll(cs, env)[..i];
    forall j | 0 <= j < i
      ensures rs[j] == Read(p[j])
    {
      ChildReadsBack(cs[j], env);
    }
    RebuildIsPointwise(rs[..i], p);
    assert rs[..i + 1][..i] == rs[..i];
    FirstErrorWins(rs, i + 1);
  }

  /** A child whose value was too big to store is rebuilt by the engine: its code, run again, gives the value. */
  lemma {:induction false} BigItemIsRebuilt(
      body: Engine.Prog, ctx: Path, n: nat, e: Entry, w: Engine.World, live: Engine.Store, fuel: nat, v: Value)
    requires Engine.Total(body) && Engine.KeepsLimits(body) && e.counter == n && CodecRoundTrips(w.env)
    requires ReplayCorrectness.AgreeOn(ctx, n, w.snap, live)
    requires ReplayCorrectness.ChildCoherent(body, ctx, n, ctx + [e], live, w.env)
    requires ReplayCorrectness.Settled(body, ctx + [e], 0, live, w.env) == Some(Ok(v))
    requires |w.env.encode(v)| > Engine.CHECKPOINT_SIZE_LIMIT_BYTES && IsFinal(Engine.Get(live, ctx + [e]))
    ensures var r := Engine.ExecChild(body, ctx, ctx + [e], w, live, fuel);
            && r.live == live
            && (ReplayCorrectness.Cost(body, ctx + [e], 0, live, w.env) <= fuel ==> r.ended.Done?)
            && (r.ended.Done? ==>
                  ReadChild(Engine.Get(live, ctx + [e]), ctx + [e], w.env, r.ended.o) == Read(Some(Ok(v))))
  {
    ReplayRuns.BigChildIsRebuilt(body, ctx, n, e, w, live, fuel, v);
    assert live[ctx + [e]].status == Succeeded;
  }
}
