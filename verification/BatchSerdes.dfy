/**
 `BatchResultSerdes`: batch results as JSON documents.  A document is the tree that
 serde_json reads and writes; how a tree is spelled as text, and how a user value becomes a
 tree, are given by a codec.
 */
module BatchSerdes {
  import opened Wrappers
  import opened Operations
  import opened Batches

  datatype Json =
    | JNull
    | JBool(b: bool)
    | JNumber(n: int)
    | JString(s: string)
    | JArray(items: seq<Json>)
    | JObject(fields: map<string, Json>)

  datatype JsonCodec = JsonCodec(
    toText: Json -> string,
    fromText: string -> Option<Json>,
    toJson: Value -> Json,
    fromJson: Json -> Option<Value>,
    show: DurableError -> string)

  /** Text is parsed back to the tree it was printed from, and a value that is not `null` is read back. */
  ghost predicate Faithful(c: JsonCodec) {
    && (forall j: Json :: c.fromText(c.toText(j)) == Some(j))
    && (forall v: Value :: c.toJson(v) != JNull ==> c.fromJson(c.toJson(v)) == Some(v))
  }

  const BATCH_RESULT_KIND := "BatchResult"

  datatype DecodeError = Malformed | WrongKind(kind: string) | InvalidReason(text: string) | InvalidStatus(text: string)

  // ----- The status and reason codecs -----

  function StatusText(s: ItemStatus): string {
    match s
    case ItemSucceeded => "SUCCEEDED"
    case ItemFailed => "FAILED"
    case ItemStarted => "STARTED"
  }

  function ParseStatus(text: string): Result<ItemStatus, DecodeError> {
    if text == "SUCCEEDED" then Ok(ItemSucceeded)
    else if text == "FAILED" then Ok(ItemFailed)
    else if text == "STARTED" then Ok(ItemStarted)
    else Err(InvalidStatus(text))
  }

  function ReasonText(r: CompletionReason): string {
    match r
    case AllCompleted => "ALL_COMPLETED"
    case MinSuccessfulReached => "MIN_SUCCESSFUL_REACHED"
    case FailureToleranceExceeded => "FAILURE_TOLERANCE_EXCEEDED"
  }

  function ParseReason(text: string): Result<CompletionReason, DecodeError> {
    if text == "ALL_COMPLETED" then Ok(AllCompleted)
    else if text == "MIN_SUCCESSFUL_REACHED" then Ok(MinSuccessfulReached)
    else if text == "FAILURE_TOLERANCE_EXCEEDED" then Ok(FailureToleranceExceeded)
    else Err(InvalidReason(text))
  }

  /** A text denotes a status, or a reason, exactly when it is the one printed for it. */
  lemma StatusCodec(text: string, s: ItemStatus, r: CompletionReason)
    ensures ParseStatus(text) == Ok(s) <==> text == StatusText(s)
    ensures ParseReason(text) == Ok(r) <==> text == ReasonText(r)
  {
    assert "SUCCEEDED"[0] == 'S' && "FAILED"[0] == 'F' && "STARTED"[1] == 'T' && "SUCCEEDED"[1] == 'U';
    assert "ALL_COMPLETED"[0] == 'A' && "MIN_SUCCESSFUL_REACHED"[0] == 'M' && "FAILURE_TOLERANCE_EXCEEDED"[0] == 'F';
  }

  // ----- Payloads -----

  datatype ItemPayload = ItemPayload(index: nat, status: string, result: Option<Value>, error: Option<string>)

  datatype Payload = Payload(kind: string, reason: string, items: seq<ItemPayload>)

  /** The message that stands for an error. */
  function Message(e: DurableError, c: JsonCodec): string {
    match e
    case Internal(message) => message
    case _ => c.show(e)
  }

  function ItemPayloadOf(x: BatchItem, c: JsonCodec): ItemPayload {
    ItemPayload(x.index, StatusText(x.status), x.result,
                if x.error.Some? then Some(Message(x.error.value, c)) else None)
  }

  function ItemPayloadsOf(all: seq<BatchItem>, c: JsonCodec): (ps: seq<ItemPayload>)
    ensures |ps| == |all|
    ensures forall i :: 0 <= i < |all| ==> ps[i] == ItemPayloadOf(all[i], c)
  {
    seq(|all|, i requires 0 <= i < |all| => ItemPayloadOf(all[i], c))
  }

  function PayloadOf(b: BatchResult, c: JsonCodec): Payload {
    Payload(BATCH_RESULT_KIND, ReasonText(b.reason), ItemPayloadsOf(b.all, c))
  }

  /** An optional member of an object. */
  function Member(key: string, j: Option<Json>): map<string, Json> {
    if j.Some? then map[key := j.value] else map[]
  }

  function ItemJson(p: ItemPayload, c: JsonCodec): Json {
    JObject(map["index" := JNumber(p.index), "status" := JString(p.status)]
          + Member("result", if p.result.Some? then Some(c.toJson(p.result.value)) else None)
          + Member("error", if p.error.Some? then Some(JString(p.error.value)) else None))
  }

  function ItemJsons(ps: seq<ItemPayload>, c: JsonCodec): (js: seq<Json>)
    ensures |js| == |ps|
    ensures forall i :: 0 <= i < |ps| ==> js[i] == ItemJson(ps[i], c)
  {
    seq(|ps|, i requires 0 <= i < |ps| => ItemJson(ps[i], c))
  }

  function PayloadJson(p: Payload, c: JsonCodec): Json {
    JObject(map["kind" := JString(p.kind), "completion_reason" := JString(p.reason),
                "items" := JArray(ItemJsons(p.items, c))])
  }

  /** `serialize`. */
  function Serialize(b: BatchResult, c: JsonCodec): string {
    c.toText(PayloadJson(PayloadOf(b, c), c))
  }

  // ----- Reading payloads back -----

  function Field(j: Json, key: string): Option<Json> {
    if j.JObject? && key in j.fields then Some(j.fields[key]) else None
  }

  function AsString(j: Option<Json>): Option<string> {
    if j.Some? && j.value.JString? then Some(j.value.s) else None
  }

  function AsNat(j: Option<Json>): Option<nat> {
    if j.Some? && j.value.JNumber? && j.value.n >= 0 then Some(j.value.n) else None
  }

  /** An optional field: missing and `null` both give `None`; anything else must be readable. */
  function ReadOption<T>(j: Option<Json>, read: Json -> Option<T>): Option<Option<T>> {
    if j.None? || j.value == JNull then Some(None)
    else
      match read(j.value)
      case Some(v) => Some(Some(v))
      case None => None
  }

  function ReadItem(j: Json, c: JsonCodec): Option<ItemPayload> {
    var index := AsNat(Field(j, "index"));
    var status := AsString(Field(j, "status"));
    var result := ReadOption(Field(j, "result"), c.fromJson);
    var error := ReadOption(Field(j, "error"), (e: Json) => AsString(Some(e)));
    if index.Some? && status.Some? && result.Some? && error.Some? then
      Some(ItemPayload(index.value, status.value, result.value, error.value))
    else None
  }

  function ReadItems(js: seq<Json>, c: JsonCodec): Option<seq<ItemPayload>> {
    if js == [] then Some([])
    else
      var front := ReadItems(js[..|js| - 1], c);
      var last := ReadItem(js[|js| - 1], c);
      if front.Some? && last.Some? then Some(front.value + [last.value]) else None
  }

  function ReadPayload(j: Json, c: JsonCodec): Option<Payload> {
    var kind := AsString(Field(j, "kind"));
    var reason := AsString(Field(j, "completion_reason"));
    var items := Field(j, "items");
    if kind.Some? && reason.Some? && items.Some? && items.value.JArray? then
      match ReadItems(items.value.items, c)
      case Some(ps) => Some(Payload(kind.value, reason.value, ps))
      case None => None
    else None
  }

  const UNNAMED_FAILURE := "Batch item failed"

  function ItemFrom(p: ItemPayload, s: ItemStatus): BatchItem {
    BatchItem(p.index, s, p.result, if s == ItemFailed then Some(Internal(p.error.GetOr(UNNAMED_FAILURE))) else None)
  }

  function ItemsFrom(ps: seq<ItemPayload>): Result<seq<BatchItem>, DecodeError> {
    if ps == [] then Ok([])
    else
      match ItemsFrom(ps[..|ps| - 1])
      case Err(e) => Err(e)
      case Ok(front) =>
        (match ParseStatus(ps[|ps| - 1].status)
         case Err(e) => Err(e)
         case Ok(s) => Ok(front + [ItemFrom(ps[|ps| - 1], s)]))
  }

  function BatchFrom(p: Payload): Result<BatchResult, DecodeError> {
    if p.kind != BATCH_RESULT_KIND then Err(WrongKind(p.kind))
    else
      match ParseReason(p.reason)
      case Err(e) => Err(e)
      case Ok(reason) =>
        (match ItemsFrom(p.items)
         case Err(e) => Err(e)
         case Ok(items) => Ok(BatchResult(Sorted(items), reason)))
  }

  function DeserializeSpec(data: string, c: JsonCodec): Result<BatchResult, DecodeError> {
    var j := c.fromText(data);
    var p := if j.Some? then ReadPayload(j.value, c) else None;
    if p.None? then Err(Malformed) else BatchFrom(p.value)
  }

  lemma {:induction false} ErrorsStay(ps: seq<ItemPayload>, n: nat, e: DecodeError)
    requires n <= |ps| && ItemsFrom(ps[..n]) == Err(e)
    ensures ItemsFrom(ps) == Err(e)
  {
    if n == |ps| {
      assert ps[..n] == ps;
    } else {
      var front := ps[..|ps| - 1];
      assert front[..n] == ps[..n];
      ErrorsStay(front, n, e);
    }
  }

  /** `deserialize`: items are pushed one by one and sorted at the end. */
  method Deserialize(data: string, c: JsonCodec) returns (r: Result<BatchResult, DecodeError>)
    ensures r == DeserializeSpec(data, c)
  {
    var j := c.fromText(data);
    if j.None? {
      return Err(Malformed);
    }
    var read := ReadPayload(j.value, c);
    if read.None? {
      return Err(Malformed);
    }
    var payload := read.value;
    if payload.kind != BATCH_RESULT_KIND {
      return Err(WrongKind(payload.kind));
    }
    var reason := ParseReason(payload.reason);
    if reason.Err? {
      return Err(reason.error);
    }
    var all := [];
    for i := 0 to |payload.items|
      invariant ItemsFrom(payload.items[..i]) == Ok(all)
    {
      var item := payload.items[i];
      TakeOneMore(payload.items, i);
      var status := ParseStatus(item.status);
      if status.Err? {
        ErrorsStay(payload.items, i + 1, status.error);
        return Err(status.error);
      }
      var error := if status.value == ItemFailed then Some(Internal(item.error.GetOr(UNNAMED_FAILURE))) else None;
      all := all + [BatchItem(item.index, status.value, item.result, error)];
    }
    assert payload.items[..|payload.items|] == payload.items;
    r := Ok(BatchResult(Sorted(all), reason.value));
  }

  // ----- The round trip -----

  /** What is left of a result: one that prints as `null` reads as missing. */
  function ReadBack(r: Option<Value>, c: JsonCodec): Option<Value> {
    if r.Some? && c.toJson(r.value) == JNull then None else r
  }

  /** What is left of an item: failures keep a message, other items keep no error. */
  function NormalItem(x: BatchItem, c: JsonCodec): BatchItem {
    var message := if x.error.Some? then Message(x.error.value, c) else UNNAMED_FAILURE;
    BatchItem(x.index, x.status, ReadBack(x.result, c), if x.status == ItemFailed then Some(Internal(message)) else None)
  }

  function NormalItems(all: seq<BatchItem>, c: JsonCodec): (s: seq<BatchItem>)
    ensures |s| == |all|
    ensures forall i :: 0 <= i < |all| ==> s[i] == NormalItem(all[i], c)
  {
    seq(|all|, i requires 0 <= i < |all| => NormalItem(all[i], c))
  }

  function Normal(b: BatchResult, c: JsonCodec): BatchResult {
    BatchResult(Sorted(NormalItems(b.all, c)), b.reason)
  }

  lemma DistinctKeys()
    ensures "index" != "status" && "index" != "result" && "index" != "error"
    ensures "status" != "result" && "status" != "error" && "result" != "error"
    ensures "kind" != "completion_reason" && "kind" != "items" && "items" != "completion_reason"
  {
    assert "index"[0] == 'i' && "status"[0] == 's' && "result"[0] == 'r' && "error"[0] == 'e';
    assert "kind"[0] == 'k' && "completion_reason"[0] == 'c' && "items"[0] == 'i';
  }

  lemma ItemFields(p: ItemPayload, c: JsonCodec)
    ensures Field(ItemJson(p, c), "index") == Some(JNumber(p.index))
    ensures Field(ItemJson(p, c), "status") == Some(JString(p.status))
    ensures Field(ItemJson(p, c), "result") == if p.result.Some? then Some(c.toJson(p.result.value)) else None
    ensures Field(ItemJson(p, c), "error") == if p.error.Some? then Some(JString(p.error.value)) else None
  {
    DistinctKeys();
  }

  /** The payload that is read back for an item. */
  function ReadPayloadOf(x: BatchItem, c: JsonCodec): ItemPayload {
    ItemPayloadOf(x, c).(result := ReadBack(x.result, c))
  }

  lemma ItemRoundTrip(x: BatchItem, c: JsonCodec)
    requires Faithful(c)
    ensures ReadItem(ItemJson(ItemPayloadOf(x, c), c), c) == Some(ReadPayloadOf(x, c))
  {
    ItemFields(ItemPayloadOf(x, c), c);
  }

  function ReadPayloadsOf(all: seq<BatchItem>, c: JsonCodec): (ps: seq<ItemPayload>)
    ensures |ps| == |all|
    ensures forall i :: 0 <= i < |all| ==> ps[i] == ReadPayloadOf(all[i], c)
  {
    seq(|all|, i requires 0 <= i < |all| => ReadPayloadOf(all[i], c))
  }

  lemma {:induction false} EachRead(js: seq<Json>, ps: seq<ItemPayload>, c: JsonCodec)
    requires |js| == |ps| && forall i :: 0 <= i < |js| ==> ReadItem(js[i], c) == Some(ps[i])
    ensures ReadItems(js, c) == Some(ps)
  {
    if js != [] {
      EachRead(js[..|js| - 1], ps[..|js| - 1], c);
      assert ps == ps[..|js| - 1] + [ps[|js| - 1]];
    }
  }

  lemma {:induction false} EachRebuilt(ps: seq<ItemPayload>, all: seq<BatchItem>)
    requires |ps| == |all|
    requires forall i :: 0 <= i < |ps| ==>
      ParseStatus(ps[i].status) == Ok(all[i].status) && ItemFrom(ps[i], all[i].status) == all[i]
    ensures ItemsFrom(ps) == Ok(all)
  {
    if ps != [] {
      EachRebuilt(ps[..|ps| - 1], all[..|ps| - 1]);
      assert all == all[..|ps| - 1] + [all[|ps| - 1]];
    }
  }

  lemma ItemIsRebuilt(x: BatchItem, c: JsonCodec)
    ensures ParseStatus(ReadPayloadOf(x, c).status) == Ok(x.status)
    ensures ItemFrom(ReadPayloadOf(x, c), x.status) == NormalItem(x, c)
  {
    StatusCodec(StatusText(x.status), x.status, AllCompleted);
  }

  lemma ItemsRoundTrip(all: seq<BatchItem>, c: JsonCodec)
    requires Faithful(c)
    ensures ReadItems(ItemJsons(ItemPayloadsOf(all, c), c), c) == Some(ReadPayloadsOf(all, c))
    ensures ItemsFrom(ReadPayloadsOf(all, c)) == Ok(NormalItems(all, c))
  {
    var js, ps, items := ItemJsons(ItemPayloadsOf(all, c), c), ReadPayloadsOf(all, c), NormalItems(all, c);
    forall i | 0 <= i < |all|
      ensures ReadItem(js[i], c) == Some(ps[i])
    {
      ItemRoundTrip(all[i], c);
    }
    EachRead(js, ps, c);
    forall i | 0 <= i < |all|
      ensures ParseStatus(ps[i].status) == Ok(items[i].status) && ItemFrom(ps[i], items[i].status) == items[i]
    {
      ItemIsRebuilt(all[i], c);
    }
    EachRebuilt(ps, items);
  }

  lemma PayloadFields(p: Payload, c: JsonCodec)
    ensures Field(PayloadJson(p, c), "kind") == Some(JString(p.kind))
    ensures Field(PayloadJson(p, c), "completion_reason") == Some(JString(p.reason))
    ensures Field(PayloadJson(p, c), "items") == Some(JArray(ItemJsons(p.items, c)))
  {
    DistinctKeys();
  }

  lemma FieldsAreRead(p: Payload, ps: seq<ItemPayload>, c: JsonCodec)
    requires ReadItems(ItemJsons(p.items, c), c) == Some(ps)
    ensures ReadPayload(PayloadJson(p, c), c) == Some(Payload(p.kind, p.reason, ps))
  {
    PayloadFields(p, c);
  }

  lemma {:induction false} PayloadIsRead(b: BatchResult, c: JsonCodec)
    requires Faithful(c)
    ensures ReadPayload(PayloadJson(PayloadOf(b, c), c), c)
         == Some(Payload(BATCH_RESULT_KIND, ReasonText(b.reason), ReadPayloadsOf(b.all, c)))
  {
    ItemsRoundTrip(b.all, c);
    FieldsAreRead(PayloadOf(b, c), ReadPayloadsOf(b.all, c), c);
  }

  /** Whatever is serialised can be deserialised, to its normal form. */
  lemma {:induction false} DecodesToNormalForm(b: BatchResult, c: JsonCodec)
    requires Faithful(c)
    ensures DeserializeSpec(Serialize(b, c), c) == Ok(Normal(b, c))
  {
    PayloadIsRead(b, c);
    ItemsRoundTrip(b.all, c);
    StatusCodec(ReasonText(b.reason), ItemStarted, b.reason);
  }

  /** The items that survive: plain-message errors on failures only, and no `null` results. */
  predicate PlainItem(x: BatchItem, c: JsonCodec) {
    && (x.result.Some? ==> c.toJson(x.result.value) != JNull)
    && (if x.status == ItemFailed then x.error.Some? && x.error.value.Internal? else x.error.None?)
  }

  lemma NormalMeansPlain(x: BatchItem, c: JsonCodec)
    ensures PlainItem(NormalItem(x, c), c)
    ensures PlainItem(x, c) <==> NormalItem(x, c) == x
  {
  }

  lemma PlainAndOrderedIsNormal(b: BatchResult, c: JsonCodec)
    requires Ordered(b.all) && forall x :: x in b.all ==> PlainItem(x, c)
    ensures Normal(b, c) == b
  {
    forall i | 0 <= i < |b.all|
      ensures NormalItems(b.all, c)[i] == b.all[i]
    {
      NormalMeansPlain(b.all[i], c);
    }
    assert NormalItems(b.all, c) == b.all;
    OrderedIsSorted(b.all);
  }

  lemma NormalIsPlainAndOrdered(b: BatchResult, c: JsonCodec)
    requires Normal(b, c) == b
    ensures Ordered(b.all) && forall x :: x in b.all ==> PlainItem(x, c)
  {
    var items := NormalItems(b.all, c);
    SortedIsOrdered(items);
    forall x | x in b.all
      ensures PlainItem(x, c)
    {
      assert x in items;
      var i :| 0 <= i < |items| && items[i] == x;
      NormalMeansPlain(b.all[i], c);
    }
  }

  /** The round trip is the identity on exactly the batches of plain items in order. */
  lemma RoundTripExactly(b: BatchResult, c: JsonCodec)
    requires Faithful(c)
    ensures DeserializeSpec(Serialize(b, c), c) == Ok(b)
       <==> Ordered(b.all) && forall x :: x in b.all ==> PlainItem(x, c)
  {
    DecodesToNormalForm(b, c);
    if Normal(b, c) == b {
      NormalIsPlainAndOrdered(b, c);
    }
    if Ordered(b.all) && forall x :: x in b.all ==> PlainItem(x, c) {
      PlainAndOrderedIsNormal(b, c);
    }
  }

  // ----- The documents themselves -----

  /** What an item's object says. */
  lemma ItemSays(x: BatchItem, c: JsonCodec)
    ensures var j := ItemJson(ItemPayloadOf(x, c), c);
            && Field(j, "index") == Some(JNumber(x.index))
            && Field(j, "status") == Some(JString(match x.status
                                                  case ItemSucceeded => "SUCCEEDED"
                                                  case ItemFailed => "FAILED"
                                                  case ItemStarted => "STARTED"))
            && (x.result.Some? ==> Field(j, "result") == Some(c.toJson(x.result.value)))
            && (x.result.None? ==> Field(j, "result") == None)
            && (x.error.None? ==> Field(j, "error") == None)
    ensures var j := ItemJson(ItemPayloadOf(x, c), c);
            x.error.Some? ==>
              Field(j, "error") == Some(JString(if x.error.value.Internal? then x.error.value.message else c.show(x.error.value)))
  {
    ItemFields(ItemPayloadOf(x, c), c);
  }

  /** What the document of a batch says: its kind, why it was complete, and its items, each in its place. */
  lemma DocumentSays(b: BatchResult, c: JsonCodec)
    ensures var j := PayloadJson(PayloadOf(b, c), c);
            && Serialize(b, c) == c.toText(j)
            && Field(j, "kind") == Some(JString("BatchResult"))
            && Field(j, "completion_reason")
               == Some(JString(match b.reason
                               case AllCompleted => "ALL_COMPLETED"
                               case MinSuccessfulReached => "MIN_SUCCESSFUL_REACHED"
                               case FailureToleranceExceeded => "FAILURE_TOLERANCE_EXCEEDED"))
            && Field(j, "items").Some? && Field(j, "items").value.JArray?
            && |Field(j, "items").value.items| == |b.all|
            && forall i :: 0 <= i < |b.all| ==> Field(j, "items").value.items[i] == ItemJson(ItemPayloadOf(b.all[i], c), c)
  {
    PayloadFields(PayloadOf(b, c), c);
  }

  /** A failed item without a message is given one; an item that did not fail keeps none. */
  lemma ItemReads(p: ItemPayload, s: ItemStatus)
    ensures ItemFrom(p, s).index == p.index && ItemFrom(p, s).status == s && ItemFrom(p, s).result == p.result
    ensures ItemFrom(p, s).error
         == if s != ItemFailed then None
            else Some(Internal(if p.error.Some? then p.error.value else "Batch item failed"))
  {
  }

  predicate IsStatus(text: string) {
    text == "SUCCEEDED" || text == "FAILED" || text == "STARTED"
  }

  predicate IsReason(text: string) {
    text == "ALL_COMPLETED" || text == "MIN_SUCCESSFUL_REACHED" || text == "FAILURE_TOLERANCE_EXCEEDED"
  }

  lemma {:induction false} ItemsReadAreKnown(ps: seq<ItemPayload>)
    requires ItemsFrom(ps).Ok?
    ensures forall j :: 0 <= j < |ps| ==> IsStatus(ps[j].status)
  {
    if ps != [] {
      ItemsReadAreKnown(ps[..|ps| - 1]);
      assert forall j :: 0 <= j < |ps| - 1 ==> ps[j] == ps[..|ps| - 1][j];
    }
  }

  /** The items are refused exactly for the first unknown status. */
  lemma {:induction false} RefusesFirstStatus(ps: seq<ItemPayload>, e: DecodeError)
    ensures ItemsFrom(ps) == Err(e)
       <==> exists i :: 0 <= i < |ps| && e == InvalidStatus(ps[i].status) && !IsStatus(ps[i].status)
                        && forall j :: 0 <= j < i ==> IsStatus(ps[j].status)
  {
    if ps != [] {
      var front := ps[..|ps| - 1];
      RefusesFirstStatus(front, e);
      if ItemsFrom(front).Err? {
        RefusesFirstStatus(front, ItemsFrom(front).error);
        var i :| 0 <= i < |front| && ItemsFrom(front).error == InvalidStatus(front[i].status) && !IsStatus(front[i].status)
                 && forall j :: 0 <= j < i ==> IsStatus(front[j].status);
        assert ps[i] == front[i] && forall j :: 0 <= j < i ==> ps[j] == front[j];
      } else {
        ItemsReadAreKnown(front);
        assert forall j :: 0 <= j < |front| ==> ps[j] == front[j];
      }
    }
  }

  /** Which error a document is refused with: for not being a payload, for its kind, its reason, or a status, in this order. */
  lemma RefusedWith(data: string, c: JsonCodec)
    ensures var p := if c.fromText(data).Some? then ReadPayload(c.fromText(data).value, c) else None;
            var r := DeserializeSpec(data, c);
            if p.None? then r == Err(Malformed)
            else if p.value.kind != "BatchResult" then r == Err(WrongKind(p.value.kind))
            else if !IsReason(p.value.reason) then r == Err(InvalidReason(p.value.reason))
            else if ItemsFrom(p.value.items).Err? then r == Err(ItemsFrom(p.value.items).error)
            else r.Ok?
  {
  }
}
