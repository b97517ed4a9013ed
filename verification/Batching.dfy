/**
 Splitting the queue into batches (`src/checkpoint/manager/queue.rs`), and what batching and
 coalescing together do to the backend's records.
 */
module Batching {
  import opened Wrappers
  import opened OperationUpdates
  import opened Coalesce

  const MAX_PAYLOAD_SIZE: nat := 750 * 1024
  const BASE_OVERHEAD: nat := 100

  function Length(s: Option<string>): nat {
    if s.Some? then |s.value| else 0
  }

  /** Estimated bytes of one update in a request. */
  function EstimateUpdateSize(u: OperationUpdate): nat {
    100 + |u.id| + Length(u.parentId) + Length(u.name) + Length(u.payload)
  }

  function Total(us: seq<OperationUpdate>): nat {
    if us == [] then 0 else Total(us[..|us| - 1]) + EstimateUpdateSize(us[|us| - 1])
  }

  /** The estimate of a whole request. */
  function Estimate(us: seq<OperationUpdate>): nat {
    BASE_OVERHEAD + Total(us)
  }

  predicate Fits(us: seq<OperationUpdate>) {
    |us| == 1 || Estimate(us) <= MAX_PAYLOAD_SIZE
  }

  /** `k` is the length of the longest prefix that fits. */
  ghost predicate IsLongestFitting(q: seq<OperationUpdate>, k: nat) {
    && 1 <= k <= |q| && Fits(q[..k])
    && forall m :: k < m <= |q| ==> !Fits(q[..m])
  }

  /** How many updates the next batch takes, starting with `k` taken and `size` estimated. */
  function TakeFrom(q: seq<OperationUpdate>, k: nat, size: nat): (n: nat)
    requires k <= |q|
    ensures k <= n <= |q| && (k == 0 && q != [] ==> n >= 1)
    decreases |q| - k
  {
    if k < |q| && (k == 0 || size + EstimateUpdateSize(q[k]) <= MAX_PAYLOAD_SIZE) then
      TakeFrom(q, k + 1, size + EstimateUpdateSize(q[k]))
    else k
  }

  function BatchLength(q: seq<OperationUpdate>): (k: nat)
    ensures k <= |q| && (q != [] ==> k >= 1)
  {
    TakeFrom(q, 0, BASE_OVERHEAD)
  }

  lemma TotalAppends(us: seq<OperationUpdate>, u: OperationUpdate)
    ensures Total(us + [u]) == Total(us) + EstimateUpdateSize(u)
  {
    assert (us + [u])[..|us|] == us;
  }

  lemma {:induction false} TotalConcat(a: seq<OperationUpdate>, b: seq<OperationUpdate>)
    ensures Total(a + b) == Total(a) + Total(b)
  {
    if b == [] {
      assert a + b == a;
    } else {
      var front, last := b[..|b| - 1], b[|b| - 1];
      assert a + b == (a + front) + [last];
      TotalConcat(a, front);
      TotalAppends(a + front, last);
    }
  }

  lemma PrefixTotal(q: seq<OperationUpdate>, k: nat, m: nat)
    requires k <= m <= |q|
    ensures Total(q[..k]) <= Total(q[..m])
    ensures k < m ==> Total(q[..k]) + EstimateUpdateSize(q[k]) <= Total(q[..m])
  {
    assert q[..m] == q[..k] + q[k..m];
    TotalConcat(q[..k], q[k..m]);
    if k < m {
      assert q[k..m] == [q[k]] + q[k + 1..m];
      TotalConcat([q[k]], q[k + 1..m]);
      assert [q[k]][..0] == [];
    }
  }

  lemma {:induction false} TakeIsLongest(q: seq<OperationUpdate>, k: nat, size: nat)
    requires k <= |q| && q != [] && size == Estimate(q[..k])
    requires k >= 1 ==> Fits(q[..k])
    ensures IsLongestFitting(q, TakeFrom(q, k, size))
    decreases |q| - k
  {
    if k < |q| && (k == 0 || size + EstimateUpdateSize(q[k]) <= MAX_PAYLOAD_SIZE) {
      TakeOneMore(q, k);
      TotalAppends(q[..k], q[k]);
      TakeIsLongest(q, k + 1, size + EstimateUpdateSize(q[k]));
    } else {
      forall m | k < m <= |q|
        ensures !Fits(q[..m])
      {
        PrefixTotal(q, k, m);
      }
    }
  }

  /** The greedy batch is the longest prefix that fits. */
  lemma BatchIsLongest(q: seq<OperationUpdate>)
    requires q != []
    ensures IsLongestFitting(q, BatchLength(q))
  {
    assert q[..0] == [];
    TakeIsLongest(q, 0, BASE_OVERHEAD);
  }

  // ----- What the estimate measures -----

  function TextOf(s: Option<string>): string {
    if s.Some? then s.value else ""
  }

  /** The texts of an update, one after the other. */
  function Texts(u: OperationUpdate): string {
    u.id + TextOf(u.parentId) + TextOf(u.name) + TextOf(u.payload)
  }

  function BatchTexts(us: seq<OperationUpdate>): string {
    if us == [] then "" else BatchTexts(us[..|us| - 1]) + Texts(us[|us| - 1])
  }

  /** An update costs a hundred bytes and those of its texts. */
  lemma EstimateMeasuresTexts(u: OperationUpdate)
    ensures EstimateUpdateSize(u) == 100 + |Texts(u)|
  {
  }

  /** An update without texts costs a hundred; one more byte in any text costs one more. */
  lemma EstimateByTheByte(u: OperationUpdate, s: string, c: char)
    ensures u.id == "" && u.parentId.None? && u.name.None? && u.payload.None? ==> EstimateUpdateSize(u) == 100
    ensures EstimateUpdateSize(u.(id := s + [c])) == EstimateUpdateSize(u.(id := s)) + 1
    ensures EstimateUpdateSize(u.(parentId := Some(s + [c]))) == EstimateUpdateSize(u.(parentId := Some(s))) + 1
    ensures EstimateUpdateSize(u.(name := Some(s + [c]))) == EstimateUpdateSize(u.(name := Some(s))) + 1
    ensures EstimateUpdateSize(u.(payload := Some(s + [c]))) == EstimateUpdateSize(u.(payload := Some(s))) + 1
  {
  }

  /** A missing text costs as much as an empty one, and nothing but the four texts counts. */
  lemma EstimateIgnoresTheRest(u: OperationUpdate, v: OperationUpdate)
    requires u.id == v.id && TextOf(u.parentId) == TextOf(v.parentId)
    requires TextOf(u.name) == TextOf(v.name) && TextOf(u.payload) == TextOf(v.payload)
    ensures EstimateUpdateSize(u) == EstimateUpdateSize(v)
  {
    EstimateMeasuresTexts(u);
    EstimateMeasuresTexts(v);
  }

  lemma {:induction false} TotalMeasuresTexts(us: seq<OperationUpdate>)
    ensures Total(us) == 100 * |us| + |BatchTexts(us)|
  {
    if us != [] {
      TotalMeasuresTexts(us[..|us| - 1]);
      EstimateMeasuresTexts(us[|us| - 1]);
    }
  }

  /** A batch of two or more updates stays, with its overhead, within 750 KB. */
  lemma BatchStaysWithinBytes(q: seq<OperationUpdate>)
    requires q != []
    ensures var b := q[..BatchLength(q)];
            |b| >= 2 ==> 100 + 100 * |b| + |BatchTexts(b)| <= 768_000
  {
    BatchIsLongest(q);
    TotalMeasuresTexts(q[..BatchLength(q)]);
  }

  lemma PairInBatch(b: seq<OperationUpdate>, i: nat, j: nat)
    requires i < j < |b|
    ensures EstimateUpdateSize(b[i]) + EstimateUpdateSize(b[j]) <= Total(b)
  {
    PrefixTotal(b, i, j);
    PrefixTotal(b, j, |b|);
    assert b[..|b|] == b;
  }

  /** Two updates whose payloads together exceed 750 KB are never sent in one batch. */
  lemma BigPayloadsNeverShare(q: seq<OperationUpdate>, i: nat, j: nat)
    requires i < j < |q| && |TextOf(q[i].payload)| + |TextOf(q[j].payload)| > 768_000
    ensures BatchLength(q) <= j
  {
    var b := q[..BatchLength(q)];
    BatchIsLongest(q);
    if j < BatchLength(q) {
      PairInBatch(b, i, j);
      EstimateMeasuresTexts(b[i]);
      EstimateMeasuresTexts(b[j]);
    }
  }

  function GreedyBatches(q: seq<OperationUpdate>): seq<seq<OperationUpdate>> {
    if q == [] then []
    else
      var k := BatchLength(q);
      [q[..k]] + GreedyBatches(q[k..])
  }

  function Concat(bs: seq<seq<OperationUpdate>>): seq<OperationUpdate> {
    if bs == [] then [] else bs[0] + Concat(bs[1..])
  }

  /** An in-order split of `q` into non-empty batches that respect the limit. */
  ghost predicate IsSplit(bs: seq<seq<OperationUpdate>>, q: seq<OperationUpdate>) {
    && Concat(bs) == q
    && forall b :: b in bs ==> b != [] && Fits(b)
  }

  lemma {:induction false} GreedyIsSplit(q: seq<OperationUpdate>)
    ensures IsSplit(GreedyBatches(q), q)
  {
    if q != [] {
      var k := BatchLength(q);
      BatchIsLongest(q);
      GreedyIsSplit(q[k..]);
      assert q[..k] + q[k..] == q;
      assert GreedyBatches(q)[1..] == GreedyBatches(q[k..]);
    }
  }

  /** A shorter piece of a batch that fits, fits. */
  lemma PiecesFit(q: seq<OperationUpdate>, j: nat, k: nat)
    requires j < k <= |q| && Fits(q[..k])
    ensures Fits(q[j..k])
  {
    assert q[..k] == q[..j] + q[j..k];
    TotalConcat(q[..j], q[j..k]);
  }

  /** Dropping a prefix of the queue never costs a batch. */
  lemma {:induction false} SuffixNeedsNoMore(q: seq<OperationUpdate>, j: nat)
    requires j <= |q|
    ensures |GreedyBatches(q[j..])| <= |GreedyBatches(q)|
    decreases |q|
  {
    if j == 0 {
      assert q[0..] == q;
    } else if j < |q| {
      var k := BatchLength(q);
      if j >= k {
        assert q[k..][j - k..] == q[j..];
        SuffixNeedsNoMore(q[k..], j - k);
      } else {
        var s := q[j..];
        var m := BatchLength(s);
        BatchIsLongest(q);
        BatchIsLongest(s);
        PiecesFit(q, j, k);
        assert s[..k - j] == q[j..k];
        assert m >= k - j;
        assert s[m..] == q[k..][j + m - k..];
        SuffixNeedsNoMore(q[k..], j + m - k);
      }
    }
  }

  /** The first batch of any split that respects the limit is no longer than the greedy one. */
  lemma FirstBatchIsNoLonger(q: seq<OperationUpdate>, bs: seq<seq<OperationUpdate>>)
    requires bs != [] && IsSplit(bs, q)
    ensures q != [] && |bs[0]| <= BatchLength(q) && q[|bs[0]|..] == Concat(bs[1..])
    ensures IsSplit(bs[1..], q[|bs[0]|..])
  {
    var b := bs[0];
    assert b in bs && q == b + Concat(bs[1..]);
    assert q[..|b|] == b && q[|b|..] == Concat(bs[1..]);
    BatchIsLongest(q);
  }

  lemma BatchesUnfold(q: seq<OperationUpdate>)
    requires q != []
    ensures |GreedyBatches(q)| == 1 + |GreedyBatches(q[BatchLength(q)..])|
  {
  }

  lemma DropTwice<T>(q: seq<T>, n: nat, k: nat)
    requires n <= k <= |q|
    ensures q[n..][k - n..] == q[k..]
  {
  }

  /** Taking less than the first batch first saves nothing. */
  lemma OneBatchMore(q: seq<OperationUpdate>, n: nat, k: nat)
    requires n <= k <= |q| && |GreedyBatches(q)| == 1 + |GreedyBatches(q[k..])|
    ensures |GreedyBatches(q)| <= 1 + |GreedyBatches(q[n..])|
  {
    DropTwice(q, n, k);
    SuffixNeedsNoMore(q[n..], k - n);
  }

  /** No in-order split that respects the limit has fewer batches than the greedy one. */
  lemma {:induction false} GreedyIsOptimal(q: seq<OperationUpdate>, bs: seq<seq<OperationUpdate>>)
    requires IsSplit(bs, q)
    ensures |GreedyBatches(q)| <= |bs|
    decreases |bs|
  {
    if bs != [] {
      FirstBatchIsNoLonger(q, bs);
      BatchesUnfold(q);
      OneBatchMore(q, |bs[0]|, BatchLength(q));
      GreedyIsOptimal(q[|bs[0]|..], bs[1..]);
    }
  }

  // ----- Coalescing and the estimate -----

  lemma {:induction false} MergedSize(us: seq<OperationUpdate>)
    requires us != []
    ensures EstimateUpdateSize(MergeAll(us)) <= Total(us)
  {
    if |us| == 1 {
      assert us[..0] == [];
    } else {
      MergedSize(us[..|us| - 1]);
      MergedFields(us[..|us| - 1]);
    }
  }

  /** The sizes of the updates of some operations. */
  function TotalOfIds(us: seq<OperationUpdate>, ids: seq<string>): nat {
    if ids == [] then 0
    else TotalOfIds(us, ids[..|ids| - 1]) + Total(OfId(us, ids[|ids| - 1]))
  }

  lemma {:induction false} TotalOfIdsAppends(us: seq<OperationUpdate>, u: OperationUpdate, ids: seq<string>)
    requires forall i, j :: 0 <= i < j < |ids| ==> ids[i] != ids[j]
    ensures TotalOfIds(us + [u], ids) == TotalOfIds(us, ids) + if u.id in ids then EstimateUpdateSize(u) else 0
  {
    if ids != [] {
      var front, last := ids[..|ids| - 1], ids[|ids| - 1];
      assert ids == front + [last];
      TotalOfIdsAppends(us, u, front);
      OfIdAppends(us, u, last);
      TotalAppends(OfId(us, last), u);
    }
  }

  lemma {:induction false} TotalByIds(us: seq<OperationUpdate>)
    ensures TotalOfIds(us, FirstIds(us)) == Total(us)
  {
    if us != [] {
      var front, last := us[..|us| - 1], us[|us| - 1];
      assert us == front + [last];
      TotalByIds(front);
      OccurringIds(front);
      var ids := FirstIds(front);
      TotalOfIdsAppends(front, last, ids);
      OfIdAppends(front, last, last.id);
      if last.id !in ids {
        assert (ids + [last.id])[..|ids|] == ids;
        assert OfId(front, last.id) == [];
        TotalAppends([], last);
        assert [] + [last] == [last];
      }
    }
  }

  lemma {:induction false} MergedTotal(us: seq<OperationUpdate>, ids: seq<string>)
    requires forall id :: id in ids ==> OfId(us, id) != []
    ensures Total(ForIds(us, ids)) <= TotalOfIds(us, ids)
  {
    if ids != [] {
      var front, last := ids[..|ids| - 1], ids[|ids| - 1];
      MergedTotal(us, front);
      MergedSize(OfId(us, last));
      TotalAppends(ForIds(us, front), MergeAll(OfId(us, last)));
    }
  }

  /** Coalescing never raises the estimate, so a batch that fits still fits when it is sent. */
  lemma CoalescingNeverGrows(us: seq<OperationUpdate>)
    ensures Estimate(Coalesced(us)) <= Estimate(us)
    ensures Fits(us) ==> Fits(Coalesced(us))
  {
    OccurringIds(us);
    MergedTotal(us, FirstIds(us));
    TotalByIds(us);
    if |us| == 1 {
      ShortIsCoalesced(us);
    }
  }

  // ----- The backend's records -----

  /** A backend: what an update makes of the record of its operation. */
  type Backend<!R> = (Option<R>, OperationUpdate) -> R

  function Lookup<R>(store: map<string, R>, id: string): Option<R> {
    if id in store then Some(store[id]) else None
  }

  /** Every update written on its own, in order. */
  function WriteAll<R>(step: Backend<R>, store: map<string, R>, us: seq<OperationUpdate>): map<string, R> {
    if us == [] then store
    else
      var s := WriteAll(step, store, us[..|us| - 1]);
      var u := us[|us| - 1];
      s[u.id := step(Lookup(s, u.id), u)]
  }

  /** Coalesced batches written in order. */
  function WriteBatches<R>(step: Backend<R>, store: map<string, R>, bs: seq<seq<OperationUpdate>>): map<string, R>
    decreases |bs|
  {
    if bs == [] then store
    else WriteBatches(step, WriteAll(step, store, Coalesced(bs[0])), bs[1..])
  }

  /** Two updates of one operation and their merge have the same effect. */
  ghost predicate RespectsMerge<R(!new)>(step: Backend<R>) {
    forall r: Option<R>, u: OperationUpdate, v: OperationUpdate ::
      u.id == v.id && u.operationType == v.operationType ==>
        step(Some(step(r, u)), v) == step(r, Merge(u, v))
  }

  /** The last-write-wins store: fields keep their last present value, the action is the last one. */
  function LastWriteWins(r: Option<OperationUpdate>, u: OperationUpdate): OperationUpdate {
    match r
    case None => u
    case Some(e) => Merge(e, u)
  }

  lemma LastWriteWinsRespectsMerge()
    ensures RespectsMerge(LastWriteWins)
  {
  }

  lemma WriteAppends<R(!new)>(step: Backend<R>, store: map<string, R>, us: seq<OperationUpdate>, u: OperationUpdate)
    ensures var s := WriteAll(step, store, us);
            WriteAll(step, store, us + [u]) == s[u.id := step(Lookup(s, u.id), u)]
  {
    assert (us + [u])[..|us|] == us;
  }

  /** Updates of one operation. */
  predicate OneOperation(us: seq<OperationUpdate>) {
    forall i, j :: 0 <= i < |us| && 0 <= j < |us| ==> us[i].id == us[j].id && us[i].operationType == us[j].operationType
  }

  lemma {:induction false} OneOperationOfId(us: seq<OperationUpdate>, id: string)
    requires !Conflict(us)
    ensures OneOperation(OfId(us, id))
  {
    OfIdBelongs(us, id);
  }

  /** Update `k` of one operation, on top of what the ones before leave, has the effect of their merge. */
  ghost predicate MergesAt<R(!new)>(step: Backend<R>, mine: seq<OperationUpdate>, k: nat, r: Option<R>)
    requires 0 < k < |mine|
  {
    step(Some(step(r, MergeAll(mine[..k]))), mine[k]) == step(r, MergeAll(mine[..k + 1]))
  }

  ghost predicate MergesAlong<R(!new)>(step: Backend<R>, mine: seq<OperationUpdate>) {
    forall k, r: Option<R> :: 0 < k < |mine| ==> MergesAt(step, mine, k, r)
  }

  lemma MergeLawMergesAlong<R(!new)>(step: Backend<R>, mine: seq<OperationUpdate>)
    requires RespectsMerge(step) && OneOperation(mine)
    ensures MergesAlong(step, mine)
  {
    forall k, r: Option<R> | 0 < k < |mine|
      ensures MergesAt(step, mine, k, r)
    {
      MergeAppends(mine[..k], mine[k]);
      MergedFields(mine[..k]);
      TakeOneMore(mine, k);
      assert mine[..k][0] == mine[0];
    }
  }

  lemma MergesAlongFront<R(!new)>(step: Backend<R>, mine: seq<OperationUpdate>, last: OperationUpdate)
    requires MergesAlong(step, mine + [last])
    ensures MergesAlong(step, mine)
    ensures mine != [] ==> forall r :: step(Some(step(r, MergeAll(mine))), last) == step(r, MergeAll(mine + [last]))
  {
    var all := mine + [last];
    forall k, r: Option<R> | 0 < k < |mine|
      ensures MergesAt(step, mine, k, r)
    {
      assert MergesAt(step, all, k, r);
      assert all[..k] == mine[..k] && all[..k + 1] == mine[..k + 1] && all[k] == mine[k];
    }
    assert all[..|mine|] == mine && all[..|mine| + 1] == all && all[|mine|] == last;
    if mine != [] {
      forall r: Option<R>
        ensures step(Some(step(r, MergeAll(mine))), last) == step(r, MergeAll(all))
      {
        assert MergesAt(step, all, |mine|, r);
      }
    }
  }

  /** What the merge of some updates of one operation leaves; no updates leave the record as it was. */
  function Effect<R(!new)>(step: Backend<R>, r: Option<R>, mine: seq<OperationUpdate>): Option<R> {
    if mine == [] then r else Some(step(r, MergeAll(mine)))
  }

  lemma RecordOfOneMore<R(!new)>(
      step: Backend<R>, r: Option<R>, now: Option<R>, mine: seq<OperationUpdate>, last: OperationUpdate)
    requires now == Effect(step, r, mine) && MergesAlong(step, mine + [last])
    ensures Some(step(now, last)) == Effect(step, r, mine + [last])
  {
    MergesAlongFront(step, mine, last);
    if mine == [] {
      assert mine + [last] == [last];
    }
  }

  /** The record of one operation depends on the merge of its own updates only. */
  lemma {:induction false} RecordOfId<R(!new)>(step: Backend<R>, store: map<string, R>, us: seq<OperationUpdate>, id: string)
    requires MergesAlong(step, OfId(us, id))
    ensures Lookup(WriteAll(step, store, us), id) == Effect(step, Lookup(store, id), OfId(us, id))
  {
    if us != [] {
      var front, last := us[..|us| - 1], us[|us| - 1];
      assert us == front + [last];
      OfIdAppends(front, last, id);
      WriteAppends(step, store, front, last);
      if last.id == id {
        MergesAlongFront(step, OfId(front, id), last);
        RecordOfId(step, store, front, id);
        RecordOfOneMore(step, Lookup(store, id), Lookup(WriteAll(step, store, front), id), OfId(front, id), last);
      } else {
        RecordOfId(step, store, front, id);
      }
    }
  }

  lemma LookupDetermines<R(!new)>(s: map<string, R>, t: map<string, R>)
    requires forall id :: Lookup(s, id) == Lookup(t, id)
    ensures s == t
  {
    forall id
      ensures id in s <==> id in t
      ensures id in s ==> s[id] == t[id]
    {
      assert Lookup(s, id) == Lookup(t, id);
    }
  }

  /** The batch can be coalesced unnoticed: it is accepted, and each operation's updates merge along. */
  ghost predicate CoalescesUnnoticed<R(!new)>(step: Backend<R>, us: seq<OperationUpdate>) {
    !Conflict(us) && forall id :: MergesAlong(step, OfId(us, id))
  }

  lemma MergeLawCoalesces<R(!new)>(step: Backend<R>, us: seq<OperationUpdate>)
    requires RespectsMerge(step) && !Conflict(us)
    ensures CoalescesUnnoticed(step, us)
  {
    forall id
      ensures MergesAlong(step, OfId(us, id))
    {
      OneOperationOfId(us, id);
      MergeLawMergesAlong(step, OfId(us, id));
    }
  }

  /** One coalesced batch does to the store what its updates do one by one. */
  lemma CoalescedBatchWritesTheSame<R(!new)>(step: Backend<R>, store: map<string, R>, us: seq<OperationUpdate>)
    requires CoalescesUnnoticed(step, us)
    ensures WriteAll(step, store, Coalesced(us)) == WriteAll(step, store, us)
  {
    forall id
      ensures Lookup(WriteAll(step, store, Coalesced(us)), id) == Lookup(WriteAll(step, store, us), id)
    {
      CoalescedOfId(us, id);
      RecordOfId(step, store, us, id);
      RecordOfId(step, store, Coalesced(us), id);
    }
    LookupDetermines(WriteAll(step, store, Coalesced(us)), WriteAll(step, store, us));
  }

  lemma {:induction false} WriteConcat<R(!new)>(
      step: Backend<R>, store: map<string, R>, a: seq<OperationUpdate>, b: seq<OperationUpdate>)
    ensures WriteAll(step, store, a + b) == WriteAll(step, WriteAll(step, store, a), b)
  {
    if b == [] {
      assert a + b == a;
    } else {
      var front, last := b[..|b| - 1], b[|b| - 1];
      assert a + b == (a + front) + [last];
      WriteConcat(step, store, a, front);
      WriteAppends(step, store, a + front, last);
    }
  }

  /** Batches that can each be coalesced unnoticed leave the store that single writes leave. */
  lemma {:induction false} UnnoticedBatches<R(!new)>(
      step: Backend<R>, store: map<string, R>, bs: seq<seq<OperationUpdate>>)
    requires forall b :: b in bs ==> CoalescesUnnoticed(step, b)
    ensures WriteBatches(step, store, bs) == WriteAll(step, store, Concat(bs))
    decreases |bs|
  {
    if bs != [] {
      assert bs[0] in bs;
      CoalescedBatchWritesTheSame(step, store, bs[0]);
      UnnoticedBatches(step, WriteAll(step, store, Coalesced(bs[0])), bs[1..]);
      WriteConcat(step, store, bs[0], Concat(bs[1..]));
    }
  }

  /**
   Coalesced batches, written in order, leave the store that writing every queued update
   singly leaves, although coalescing moves updates across those of other operations.
   */
  lemma BatchesRefineSingleWrites<R(!new)>(step: Backend<R>, store: map<string, R>, bs: seq<seq<OperationUpdate>>)
    requires RespectsMerge(step)
    requires forall b :: b in bs ==> !Conflict(b)
    ensures WriteBatches(step, store, bs) == WriteAll(step, store, Concat(bs))
  {
    forall b | b in bs
      ensures CoalescesUnnoticed(step, b)
    {
      MergeLawCoalesces(step, b);
    }
    UnnoticedBatches(step, store, bs);
  }

  /** Coalescing any batch the manager would send goes unnoticed. */
  ghost predicate CoalescingIsInvisible<R(!new)>(step: Backend<R>) {
    forall store: map<string, R>, us: seq<OperationUpdate> ::
      !Conflict(us) ==> WriteAll(step, store, Coalesced(us)) == WriteAll(step, store, us)
  }

  lemma CoalescedPairIds(u: OperationUpdate, v: OperationUpdate)
    requires u.id == v.id
    ensures FirstIds([u, v]) == [u.id]
  {
    assert [u, v] == [u] + [v] && [u] == [] + [u];
    OfIdAppends([], u, u.id);
    OfIdAppends([u], v, u.id);
  }

  lemma OneOf(us: seq<OperationUpdate>, id: string)
    requires OfId(us, id) != []
    ensures ForIds(us, [id]) == [MergeAll(OfId(us, id))]
  {
    assert [id][..0] == [];
  }

  lemma PairCoalesced(u: OperationUpdate, v: OperationUpdate)
    requires u.id == v.id
    ensures Coalesced([u, v]) == [Merge(u, v)]
  {
    CoalescedPairIds(u, v);
    OfIdAppends([], u, u.id);
    OfIdAppends([u], v, u.id);
    assert [u, v] == [u] + [v] && [u] == [] + [u];
    MergeAppends([u], v);
    OccurringIds([u, v]);
    OneOf([u, v], u.id);
  }

  lemma OneWrite<R(!new)>(step: Backend<R>, store: map<string, R>, u: OperationUpdate)
    ensures WriteAll(step, store, [u]) == store[u.id := step(Lookup(store, u.id), u)]
  {
    assert [u] == [] + [u];
    WriteAppends(step, store, [], u);
  }

  lemma TwoWrites<R(!new)>(step: Backend<R>, store: map<string, R>, u: OperationUpdate, v: OperationUpdate)
    requires u.id == v.id
    ensures Lookup(WriteAll(step, store, [u, v]), u.id) == Some(step(Some(step(Lookup(store, u.id), u)), v))
  {
    assert [u, v] == [u] + [v];
    OneWrite(step, store, u);
    WriteAppends(step, store, [u], v);
  }

  lemma MergeLawAt<R(!new)>(step: Backend<R>, r: Option<R>, u: OperationUpdate, v: OperationUpdate)
    requires u.id == v.id && u.operationType == v.operationType && CoalescingIsInvisible(step)
    ensures step(Some(step(r, u)), v) == step(r, Merge(u, v))
  {
    var store: map<string, R> := if r.Some? then map[u.id := r.value] else map[];
    assert Lookup(store, u.id) == r;
    assert !Conflict([u, v]);
    PairCoalesced(u, v);
    TwoWrites(step, store, u, v);
    OneWrite(step, store, Merge(u, v));
    assert WriteAll(step, store, Coalesced([u, v])) == WriteAll(step, store, [u, v]);
  }

  /** The merge law is exactly what a backend needs for coalescing to go unnoticed. */
  lemma RefinementNeedsMergeLaw<R(!new)>(step: Backend<R>)
    ensures RespectsMerge(step) <==> CoalescingIsInvisible(step)
  {
    if RespectsMerge(step) {
      forall store: map<string, R>, us: seq<OperationUpdate> | !Conflict(us)
        ensures WriteAll(step, store, Coalesced(us)) == WriteAll(step, store, us)
      {
        MergeLawCoalesces(step, us);
        CoalescedBatchWritesTheSame(step, store, us);
      }
    }
    if CoalescingIsInvisible(step) {
      forall r: Option<R>, u: OperationUpdate, v: OperationUpdate | u.id == v.id && u.operationType == v.operationType
        ensures step(Some(step(r, u)), v) == step(r, Merge(u, v))
      {
        MergeLawAt(step, r, u, v);
      }
    }
  }
}
