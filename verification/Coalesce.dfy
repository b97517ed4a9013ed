/** `src/checkpoint/manager/coalesce.rs`: one update per operation in each batch. */
module Coalesce {
  import opened Wrappers
  import opened OperationUpdates

  function Later<T>(earlier: Option<T>, later: Option<T>): Option<T> {
    if later.Some? then later else earlier
  }

  /** The newest action, and of every optional field the newest present value. */
  function Merge(existing: OperationUpdate, update: OperationUpdate): OperationUpdate {
    OperationUpdate(
      existing.id,
      Later(existing.parentId, update.parentId),
      Later(existing.name, update.name),
      existing.operationType,
      Later(existing.subType, update.subType),
      update.action,
      Later(existing.payload, update.payload),
      Later(existing.error, update.error),
      Later(existing.contextOptions, update.contextOptions),
      Later(existing.stepOptions, update.stepOptions),
      Later(existing.waitOptions, update.waitOptions),
      Later(existing.callbackOptions, update.callbackOptions),
      Later(existing.chainedInvokeOptions, update.chainedInvokeOptions))
  }

  // ----- Reference: per operation, independent of the other operations -----

  /** The updates of one operation, in order. */
  function OfId(us: seq<OperationUpdate>, id: string): seq<OperationUpdate> {
    if us == [] then []
    else
      var last := us[|us| - 1];
      OfId(us[..|us| - 1], id) + if last.id == id then [last] else []
  }

  /** The ids that occur, in the order of their first occurrence. */
  function FirstIds(us: seq<OperationUpdate>): seq<string> {
    if us == [] then []
    else
      var ids := FirstIds(us[..|us| - 1]);
      if us[|us| - 1].id in ids then ids else ids + [us[|us| - 1].id]
  }

  function MergeAll(us: seq<OperationUpdate>): OperationUpdate
    requires us != []
  {
    if |us| == 1 then us[0] else Merge(MergeAll(us[..|us| - 1]), us[|us| - 1])
  }

  /** The last present value of a field. */
  function LastPresent<T>(us: seq<OperationUpdate>, field: OperationUpdate -> Option<T>): Option<T> {
    if us == [] then None else Later(LastPresent(us[..|us| - 1], field), field(us[|us| - 1]))
  }

  /** One merged update for each of some ids that occur. */
  function ForIds(us: seq<OperationUpdate>, ids: seq<string>): seq<OperationUpdate>
    requires forall id :: id in ids ==> OfId(us, id) != []
  {
    if ids == [] then []
    else ForIds(us, ids[..|ids| - 1]) + [MergeAll(OfId(us, ids[|ids| - 1]))]
  }

  lemma {:induction false} OccurringIds(us: seq<OperationUpdate>)
    ensures forall id :: id in FirstIds(us) <==> OfId(us, id) != []
    ensures forall id :: id in FirstIds(us) <==> exists u :: u in us && u.id == id
    ensures forall i, j :: 0 <= i < j < |FirstIds(us)| ==> FirstIds(us)[i] != FirstIds(us)[j]
  {
    if us != [] {
      var front, last := us[..|us| - 1], us[|us| - 1];
      OccurringIds(front);
      assert us == front + [last];
      forall id
        ensures id in FirstIds(us) <==> OfId(us, id) != []
        ensures id in FirstIds(us) <==> exists u :: u in us && u.id == id
      {
        assert (exists u :: u in us && u.id == id) <==> (last.id == id || exists u :: u in front && u.id == id);
      }
    }
  }

  function Coalesced(us: seq<OperationUpdate>): seq<OperationUpdate> {
    OccurringIds(us);
    ForIds(us, FirstIds(us))
  }

  /** Two updates of one operation disagree on its type. */
  predicate Conflict(us: seq<OperationUpdate>) {
    exists u, v :: u in us && v in us && u.id == v.id && u.operationType != v.operationType
  }

  lemma {:induction false} OfIdBelongs(us: seq<OperationUpdate>, id: string)
    ensures forall u :: u in OfId(us, id) <==> u in us && u.id == id
  {
    if us != [] {
      OfIdBelongs(us[..|us| - 1], id);
      assert us == us[..|us| - 1] + [us[|us| - 1]];
    }
  }

  /** It is the value of the last update that has one. */
  lemma {:induction false} LastPresentExactly<T(!new)>(us: seq<OperationUpdate>, field: OperationUpdate -> Option<T>, v: T)
    ensures LastPresent(us, field) == Some(v)
       <==> exists i :: 0 <= i < |us| && field(us[i]) == Some(v) && forall j :: i < j < |us| ==> field(us[j]).None?
  {
    if us != [] {
      var front := us[..|us| - 1];
      LastPresentExactly(front, field, v);
      assert forall i :: 0 <= i < |front| ==> field(us[i]) == field(front[i]);
      if field(us[|us| - 1]).Some? {
        assert field(us[|us| - 1]) == LastPresent(us, field);
      }
    }
  }

  /** The merged update keeps id and type of the first, the action of the last, the last value of each field. */
  lemma {:induction false} MergedFields(us: seq<OperationUpdate>)
    requires us != []
    ensures var m := MergeAll(us);
            && m.id == us[0].id && m.operationType == us[0].operationType
            && m.action == us[|us| - 1].action
            && m.parentId == LastPresent(us, (u: OperationUpdate) => u.parentId)
            && m.name == LastPresent(us, (u: OperationUpdate) => u.name)
            && m.subType == LastPresent(us, (u: OperationUpdate) => u.subType)
            && m.payload == LastPresent(us, (u: OperationUpdate) => u.payload)
            && m.error == LastPresent(us, (u: OperationUpdate) => u.error)
            && m.contextOptions == LastPresent(us, (u: OperationUpdate) => u.contextOptions)
            && m.stepOptions == LastPresent(us, (u: OperationUpdate) => u.stepOptions)
            && m.waitOptions == LastPresent(us, (u: OperationUpdate) => u.waitOptions)
            && m.callbackOptions == LastPresent(us, (u: OperationUpdate) => u.callbackOptions)
            && m.chainedInvokeOptions == LastPresent(us, (u: OperationUpdate) => u.chainedInvokeOptions)
  {
    if |us| == 1 {
      assert us[..0] == [];
    } else {
      MergedFields(us[..|us| - 1]);
    }
  }

  // ----- The loop -----

  datatype TypeMismatch = TypeMismatch(id: string, existing: OperationType, update: OperationType)

  /** The first update that disagrees with an earlier one of its operation. */
  ghost predicate FirstMismatch(us: seq<OperationUpdate>, j: nat, e: TypeMismatch)
    requires j < |us|
  {
    && !Conflict(us[..j])
    && (exists u :: u in us[..j] && u.id == e.id && u.operationType == e.existing)
    && us[j].id == e.id && us[j].operationType == e.update && e.existing != e.update
  }

  /** `order` and `byId` after the updates `us`. */
  ghost predicate Indexed(us: seq<OperationUpdate>, order: seq<string>, byId: map<string, OperationUpdate>) {
    && !Conflict(us)
    && order == FirstIds(us)
    && (forall id :: id in byId <==> id in order)
    && |byId| == |order|
    && (forall id :: id in byId ==> OfId(us, id) != [] && byId[id] == MergeAll(OfId(us, id)))
  }

  lemma OfIdAppends(us: seq<OperationUpdate>, u: OperationUpdate, id: string)
    ensures OfId(us + [u], id) == if u.id == id then OfId(us, id) + [u] else OfId(us, id)
    ensures FirstIds(us + [u]) == if u.id in FirstIds(us) then FirstIds(us) else FirstIds(us) + [u.id]
  {
    assert (us + [u])[..|us|] == us;
  }

  lemma MergeAppends(us: seq<OperationUpdate>, u: OperationUpdate)
    requires us != []
    ensures MergeAll(us + [u]) == Merge(MergeAll(us), u)
  {
    assert (us + [u])[..|us|] == us;
  }

  lemma NoConflictAppend(us: seq<OperationUpdate>, u: OperationUpdate)
    requires !Conflict(us)
    requires forall v :: v in OfId(us, u.id) ==> v.operationType == u.operationType
    ensures !Conflict(us + [u])
  {
    OfIdBelongs(us, u.id);
  }

  lemma IndexNew(us: seq<OperationUpdate>, order: seq<string>, byId: map<string, OperationUpdate>, u: OperationUpdate)
    requires Indexed(us, order, byId) && u.id !in byId
    ensures Indexed(us + [u], order + [u.id], byId[u.id := u])
  {
    OfIdAppends(us, u, u.id);
    OccurringIds(us);
    assert OfId(us, u.id) == [];
    NoConflictAppend(us, u);
    var after := byId[u.id := u];
    forall id | id in after
      ensures OfId(us + [u], id) != [] && after[id] == MergeAll(OfId(us + [u], id))
    {
      OfIdAppends(us, u, id);
    }
  }

  lemma SameTypeAsMerged(us: seq<OperationUpdate>, id: string)
    requires !Conflict(us) && OfId(us, id) != []
    ensures var m := MergeAll(OfId(us, id));
            && m.id == id
            && (forall v :: v in OfId(us, id) ==> v.operationType == m.operationType)
            && (exists v :: v in us && v.id == id && v.operationType == m.operationType)
  {
    var mine := OfId(us, id);
    OfIdBelongs(us, id);
    MergedFields(mine);
    assert mine[0] in mine;
  }

  lemma MergedWithNext(
      us: seq<OperationUpdate>, order: seq<string>, byId: map<string, OperationUpdate>, u: OperationUpdate, id: string)
    requires Indexed(us, order, byId) && u.id in byId && id in byId
    ensures OfId(us + [u], id) != []
    ensures byId[u.id := Merge(byId[u.id], u)][id] == MergeAll(OfId(us + [u], id))
  {
    OfIdAppends(us, u, id);
    MergeAppends(OfId(us, id), u);
  }

  lemma IndexOld(us: seq<OperationUpdate>, order: seq<string>, byId: map<string, OperationUpdate>, u: OperationUpdate)
    requires Indexed(us, order, byId) && u.id in byId
    requires byId[u.id].operationType == u.operationType
    ensures Indexed(us + [u], order, byId[u.id := Merge(byId[u.id], u)])
  {
    SameTypeAsMerged(us, u.id);
    NoConflictAppend(us, u);
    var after := byId[u.id := Merge(byId[u.id], u)];
    forall id | id in after
      ensures OfId(us + [u], id) != [] && after[id] == MergeAll(OfId(us + [u], id))
    {
      MergedWithNext(us, order, byId, u, id);
    }
  }

  /** The error is about the first update that disagrees with an earlier one. */
  ghost predicate Rejected(us: seq<OperationUpdate>, e: TypeMismatch) {
    exists j :: 0 <= j < |us| && FirstMismatch(us, j, e)
  }

  lemma IndexMismatch(us: seq<OperationUpdate>, i: nat, order: seq<string>, byId: map<string, OperationUpdate>)
    requires i < |us| && Indexed(us[..i], order, byId)
    requires us[i].id in byId && byId[us[i].id].operationType != us[i].operationType
    ensures var existing := byId[us[i].id];
            Rejected(us, TypeMismatch(existing.id, existing.operationType, us[i].operationType))
    ensures Conflict(us)
  {
    var existing := byId[us[i].id];
    SameTypeAsMerged(us[..i], us[i].id);
    assert FirstMismatch(us, i, TypeMismatch(existing.id, existing.operationType, us[i].operationType));
    var u :| u in us[..i] && u.id == us[i].id && u.operationType == existing.operationType;
    assert u in us && us[i] in us;
  }

  /** The merged updates in the order their ids were first seen. */
  method TakeInOrder(ghost us: seq<OperationUpdate>, order: seq<string>, byId: map<string, OperationUpdate>)
    returns (out: seq<OperationUpdate>)
    requires Indexed(us, order, byId)
    ensures out == Coalesced(us)
  {
    OccurringIds(us);
    out := [];
    for i := 0 to |order|
      invariant out == ForIds(us, order[..i])
    {
      TakeOneMore(order, i);
      assert order[..i + 1][..i] == order[..i];
      out := out + [byId[order[i]]];
    }
    assert order[..|order|] == order;
  }

  lemma ShortIsCoalesced(us: seq<OperationUpdate>)
    requires |us| <= 1
    ensures Coalesced(us) == us && !Conflict(us)
  {
    if |us| == 1 {
      var u := us[0];
      assert us[..0] == [] && OfId(us, u.id) == [u];
      assert FirstIds(us) == [u.id] && [u.id][..0] == [];
      OccurringIds(us);
      assert ForIds(us, [u.id]) == ForIds(us, []) + [MergeAll([u])];
    }
  }

  /** `warned` is the branch that reports a length mismatch after the loop: it is dead. */
  method CoalesceUpdates(updates: seq<OperationUpdate>)
    returns (r: Result<seq<OperationUpdate>, TypeMismatch>, warned: bool)
    ensures r.Ok? <==> !Conflict(updates)
    ensures r.Ok? ==> r.value == Coalesced(updates)
    ensures r.Err? ==> Rejected(updates, r.error)
    ensures !warned
  {
    warned := false;
    if |updates| <= 1 {
      ShortIsCoalesced(updates);
      r := Ok(updates);
      return;
    }
    var order: seq<string> := [];
    var byId: map<string, OperationUpdate> := map[];
    for i := 0 to |updates|
      invariant Indexed(updates[..i], order, byId)
    {
      var update := updates[i];
      TakeOneMore(updates, i);
      if update.id !in byId {
        IndexNew(updates[..i], order, byId, update);
        order := order + [update.id];
        byId := byId[update.id := update];
      } else {
        var existing := byId[update.id];
        if existing.operationType != update.operationType {
          IndexMismatch(updates, i, order, byId);
          r := Err(TypeMismatch(existing.id, existing.operationType, update.operationType));
          return;
        }
        IndexOld(updates[..i], order, byId, update);
        byId := byId[update.id := Merge(existing, update)];
      }
    }
    assert updates[..|updates|] == updates;
    if |byId| != |order| {
      warned := true;
    }
    var out := TakeInOrder(updates, order, byId);
    r := Ok(out);
  }

  // ----- Algebra -----

  /** The ids of the output are the ids of the input, without repetition, in first-occurrence order. */
  lemma {:induction false} OutputIds(us: seq<OperationUpdate>, ids: seq<string>)
    requires forall id :: id in ids ==> OfId(us, id) != []
    ensures |ForIds(us, ids)| == |ids|
    ensures forall i :: 0 <= i < |ids| ==>
              ForIds(us, ids)[i] == MergeAll(OfId(us, ids[i])) && ForIds(us, ids)[i].id == ids[i]
  {
    if ids != [] {
      var last := ids[|ids| - 1];
      OutputIds(us, ids[..|ids| - 1]);
      OfIdBelongs(us, last);
      MergedFields(OfId(us, last));
      assert OfId(us, last)[0] in OfId(us, last);
    }
  }

  /** Ids of a concatenation: those of the first part, then the new ones of the second. */
  function Union(p: seq<string>, q: seq<string>): seq<string> {
    if q == [] then p
    else
      var u := Union(p, q[..|q| - 1]);
      if q[|q| - 1] in u then u else u + [q[|q| - 1]]
  }

  lemma {:induction false} UnionMembers(p: seq<string>, q: seq<string>)
    ensures forall id :: id in Union(p, q) <==> id in p || id in q
  {
    if q != [] {
      UnionMembers(p, q[..|q| - 1]);
      assert q == q[..|q| - 1] + [q[|q| - 1]];
    }
  }

  lemma {:induction false} ConcatOfId(a: seq<OperationUpdate>, b: seq<OperationUpdate>, id: string)
    ensures OfId(a + b, id) == OfId(a, id) + OfId(b, id)
  {
    if b == [] {
      assert a + b == a;
    } else {
      var front, last := b[..|b| - 1], b[|b| - 1];
      assert a + b == (a + front) + [last] && b == front + [last];
      ConcatOfId(a, front, id);
      OfIdAppends(a + front, last, id);
      OfIdAppends(front, last, id);
    }
  }

  lemma UnionAppends(p: seq<string>, q: seq<string>, id: string)
    ensures Union(p, q + [id]) == if id in Union(p, q) then Union(p, q) else Union(p, q) + [id]
  {
    assert (q + [id])[..|q|] == q;
  }

  lemma {:induction false} ConcatIds(a: seq<OperationUpdate>, b: seq<OperationUpdate>)
    ensures FirstIds(a + b) == Union(FirstIds(a), FirstIds(b))
  {
    if b == [] {
      assert a + b == a;
    } else {
      var front, last := b[..|b| - 1], b[|b| - 1];
      assert a + b == (a + front) + [last] && b == front + [last];
      ConcatIds(a, front);
      OfIdAppends(a + front, last, last.id);
      OfIdAppends(front, last, last.id);
      UnionMembers(FirstIds(a), FirstIds(front));
      UnionAppends(FirstIds(a), FirstIds(front), last.id);
    }
  }

  lemma {:induction false} MergeAllConcat(a: seq<OperationUpdate>, b: seq<OperationUpdate>)
    requires a != [] && b != []
    ensures MergeAll(a + b) == Merge(MergeAll(a), MergeAll(b))
  {
    assert (a + b)[..|a + b| - 1] == a + b[..|b| - 1];
    if |b| == 1 {
      assert a + b[..0] == a;
    } else {
      MergeAllConcat(a, b[..|b| - 1]);
    }
  }

  /** In the output every operation has its one merged update. */
  lemma {:induction false} OfIdOutput(us: seq<OperationUpdate>, ids: seq<string>, id: string)
    requires forall x :: x in ids ==> OfId(us, x) != []
    requires forall i, j :: 0 <= i < j < |ids| ==> ids[i] != ids[j]
    ensures OfId(ForIds(us, ids), id) == if id in ids then [MergeAll(OfId(us, id))] else []
  {
    if ids != [] {
      var front, last := ids[..|ids| - 1], ids[|ids| - 1];
      OfIdOutput(us, front, id);
      OutputIds(us, ids);
      assert ids == front + [last];
      var out := ForIds(us, ids);
      assert out[..|out| - 1] == ForIds(us, front);
    }
  }

  lemma CoalescedOfId(us: seq<OperationUpdate>, id: string)
    ensures OfId(Coalesced(us), id) == if OfId(us, id) != [] then [MergeAll(OfId(us, id))] else []
  {
    OccurringIds(us);
    OfIdOutput(us, FirstIds(us), id);
  }

  lemma {:induction false} FirstIdsOfDistinct(us: seq<OperationUpdate>, ids: seq<string>)
    requires |us| == |ids| && forall i :: 0 <= i < |us| ==> us[i].id == ids[i]
    requires forall i, j :: 0 <= i < j < |ids| ==> ids[i] != ids[j]
    ensures FirstIds(us) == ids
  {
    if us != [] {
      FirstIdsOfDistinct(us[..|us| - 1], ids[..|ids| - 1]);
      assert ids == ids[..|ids| - 1] + [ids[|ids| - 1]];
    }
  }

  lemma CoalescedIds(us: seq<OperationUpdate>)
    ensures FirstIds(Coalesced(us)) == FirstIds(us)
    ensures |Coalesced(us)| == |FirstIds(us)|
  {
    OccurringIds(us);
    OutputIds(us, FirstIds(us));
    FirstIdsOfDistinct(Coalesced(us), FirstIds(us));
  }

  /** Which operation has which types. */
  ghost predicate HasType(us: seq<OperationUpdate>, id: string, t: OperationType) {
    exists u :: u in us && u.id == id && u.operationType == t
  }

  lemma CoalescedTypes(us: seq<OperationUpdate>, id: string, t: OperationType)
    requires !Conflict(us)
    ensures HasType(Coalesced(us), id, t) <==> HasType(us, id, t)
  {
    var mine, out := OfId(us, id), OfId(Coalesced(us), id);
    OfIdBelongs(us, id);
    OfIdBelongs(Coalesced(us), id);
    CoalescedOfId(us, id);
    if mine != [] {
      MergedFields(mine);
      assert mine[0] in mine && out[0] in out;
    }
  }

  lemma TypesOfConcat(a: seq<OperationUpdate>, b: seq<OperationUpdate>, id: string, t: OperationType)
    ensures HasType(a + b, id, t) <==> HasType(a, id, t) || HasType(b, id, t)
  {
  }

  lemma ConflictByTypes(a: seq<OperationUpdate>, b: seq<OperationUpdate>)
    requires forall id, t :: HasType(a, id, t) <==> HasType(b, id, t)
    ensures Conflict(a) <==> Conflict(b)
  {
    if u, v :| u in a && v in a && u.id == v.id && u.operationType != v.operationType {
      assert HasType(a, u.id, u.operationType) && HasType(a, u.id, v.operationType);
    }
    if u, v :| u in b && v in b && u.id == v.id && u.operationType != v.operationType {
      assert HasType(b, u.id, u.operationType) && HasType(b, u.id, v.operationType);
    }
  }

  lemma StagedMerge(a: seq<OperationUpdate>, b: seq<OperationUpdate>, id: string)
    ensures var all, staged := OfId(a + b, id), OfId(Coalesced(a) + Coalesced(b), id);
            && (all == [] <==> staged == [])
            && (all != [] ==> MergeAll(all) == MergeAll(staged))
  {
    var c, d := Coalesced(a), Coalesced(b);
    ConcatOfId(a, b, id);
    ConcatOfId(c, d, id);
    CoalescedOfId(a, id);
    CoalescedOfId(b, id);
    var x, y := OfId(a, id), OfId(b, id);
    if x == [] {
      assert x + y == y && OfId(c, id) + OfId(d, id) == OfId(d, id);
    } else if y == [] {
      assert x + y == x && OfId(c, id) + OfId(d, id) == OfId(c, id);
    } else {
      MergeAllConcat(x, y);
      MergeAllConcat(OfId(c, id), OfId(d, id));
    }
  }

  lemma {:induction false} SameForIds(us: seq<OperationUpdate>, vs: seq<OperationUpdate>, ids: seq<string>)
    requires forall id :: id in ids ==>
               OfId(us, id) != [] && OfId(vs, id) != [] && MergeAll(OfId(us, id)) == MergeAll(OfId(vs, id))
    ensures ForIds(us, ids) == ForIds(vs, ids)
  {
    if ids != [] {
      SameForIds(us, vs, ids[..|ids| - 1]);
    }
  }

  lemma StagedOutput(a: seq<OperationUpdate>, b: seq<OperationUpdate>)
    ensures Coalesced(a + b) == Coalesced(Coalesced(a) + Coalesced(b))
  {
    var c, d := Coalesced(a), Coalesced(b);
    CoalescedIds(a);
    CoalescedIds(b);
    ConcatIds(a, b);
    ConcatIds(c, d);
    OccurringIds(a + b);
    OccurringIds(c + d);
    forall id | id in FirstIds(a + b)
      ensures MergeAll(OfId(a + b, id)) == MergeAll(OfId(c + d, id))
    {
      StagedMerge(a, b, id);
    }
    SameForIds(a + b, c + d, FirstIds(a + b));
  }

  /** Coalescing in two stages is coalescing at once, failures included. */
  lemma CoalesceInStages(a: seq<OperationUpdate>, b: seq<OperationUpdate>)
    requires !Conflict(a) && !Conflict(b)
    ensures Conflict(a + b) <==> Conflict(Coalesced(a) + Coalesced(b))
    ensures Coalesced(a + b) == Coalesced(Coalesced(a) + Coalesced(b))
  {
    var c, d := Coalesced(a), Coalesced(b);
    forall id, t
      ensures HasType(a + b, id, t) <==> HasType(c + d, id, t)
    {
      CoalescedTypes(a, id, t);
      CoalescedTypes(b, id, t);
      TypesOfConcat(a, b, id, t);
      TypesOfConcat(c, d, id, t);
    }
    ConflictByTypes(a + b, c + d);
    StagedOutput(a, b);
  }
}
