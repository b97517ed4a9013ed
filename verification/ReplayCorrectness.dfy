/**
 Interruption cannot be observed: every invocation of a handler, however earlier ones were
 cut, agrees with one uninterrupted run that is given the recorded outcomes.
 */
module ReplayCorrectness {
  import opened Wrappers
  import opened Operations
  import opened ReplayEngine

  // ----- The uninterrupted run -----

  datatype Reference = Reference(result: Option<Outcome>, trace: seq<(Path, Outcome)>)

  /**
   One uninterrupted run of the rest of context `c`, given the recorded outcomes of steps
   and waits.  Child contexts always run: their own records are not looked at.  The run ends
   early, with no result, at the first operation without a recorded outcome.
   */
  ghost function Uninterrupted(p: Prog, c: Path, n: nat, s: Store, env: Env): Reference
    requires Total(p)
    decreases p
  {
    match p
    case Finish(r) => Reference(Some(r), [])
    case Call(name, leaf, k) =>
      var key := c + [Entry(name, n)];
      (match LeafOutcome(leaf, Get(s, key), key, env)
       case None => Reference(None, [])
       case Some(o) =>
         var rest := Uninterrupted(k[o], c, n + 1, s, env);
         Reference(rest.result, [(key, o)] + rest.trace))
    case Nested(name, body, k) =>
      var key := c + [Entry(name, n)];
      var inner := Uninterrupted(body, key, 0, s, env);
      (match inner.result
       case None => inner
       case Some(r) =>
         var o := ChildOutcome(key, r, env);
         var rest := Uninterrupted(k[o], c, n + 1, s, env);
         Reference(rest.result, inner.trace + [(key, o)] + rest.trace))
  }

  // ----- What the store of a half-finished run looks like -----

  /** The keys that the rest of context `c`, from operation number `n` on, may touch. */
  predicate InRegion(c: Path, n: nat, key: Path) {
    |c| < |key| && key[..|c|] == c && n <= key[|c|].counter
  }

  ghost predicate AgreeOn(c: Path, n: nat, s: Store, t: Store) {
    forall key :: InRegion(c, n, key) ==> Get(s, key) == Get(t, key)
  }

  ghost predicate AgreeOutside(c: Path, n: nat, s: Store, t: Store) {
    forall key :: !InRegion(c, n, key) ==> Get(s, key) == Get(t, key)
  }

  ghost predicate Fresh(c: Path, n: nat, s: Store) {
    forall key :: InRegion(c, n, key) ==> key !in s
  }

  /** The record that completes a child context whose code ended with `r`. */
  predicate Completes(rec: Record, r: Outcome, env: Env) {
    var w := ChildEnd(r, env);
    && rec.kind == ContextKind
    && rec.status == (if w.action == Succeed then Succeeded else Failed)
    && rec.result == w.payload && rec.error == w.error && rec.replayChildren == w.replayChildren
  }

  /** The result of the rest of `c` when every operation in it, child contexts too, is recorded. */
  ghost function Settled(p: Prog, c: Path, n: nat, s: Store, env: Env): Option<Outcome>
    requires Total(p)
    decreases p
  {
    match p
    case Finish(r) => Some(r)
    case Call(name, leaf, k) =>
      var key := c + [Entry(name, n)];
      (match LeafOutcome(leaf, Get(s, key), key, env)
       case None => None
       case Some(o) => Settled(k[o], c, n + 1, s, env))
    case Nested(name, body, k) =>
      var key := c + [Entry(name, n)];
      (match Settled(body, key, 0, s, env)
       case None => None
       case Some(r) =>
         if key in s && Completes(s[key], r, env) then Settled(k[ChildOutcome(key, r, env)], c, n + 1, s, env)
         else None)
  }

  /** How many failing checks a settled run makes again; recorded child contexts make none. */
  ghost function Cost(p: Prog, c: Path, n: nat, s: Store, env: Env): nat
    requires Total(p)
    decreases p
  {
    match p
    case Finish(_) => 0
    case Call(name, leaf, k) =>
      var key := c + [Entry(name, n)];
      var o := LeafOutcome(leaf, Get(s, key), key, env);
      LeafCost(leaf, Get(s, key), env) + if o.None? then 0 else Cost(k[o.value], c, n + 1, s, env)
    case Nested(name, body, k) =>
      var key := c + [Entry(name, n)];
      var r := Settled(body, key, 0, s, env);
      (if EvaluateReplay(Get(s, key), key, env).ReplayChildren? then Cost(body, key, 0, s, env) else 0)
      + if r.None? then 0 else Cost(k[ChildOutcome(key, r.value, env)], c, n + 1, s, env)
  }

  ghost function ChildCost(body: Prog, key: Path, s: Store, env: Env): nat
    requires Total(body)
  {
    if EvaluateReplay(Get(s, key), key, env).ReplayChildren? then Cost(body, key, 0, s, env) else 0
  }

  /** A run that only replays: it writes nothing, and can be cut in failing checks only. */
  ghost predicate Replays(r: Run, o: Outcome, live: Store, fuel: nat, cost: nat) {
    && r.live == live
    && (if cost <= fuel then r.ended == Done(o) && r.fuel == fuel - cost else r.ended == Stopped(Crashed))
  }

  /** Each outcome that `s` determines along the uninterrupted run is also the one of `t`. */
  ghost predicate Grows(p: Prog, c: Path, n: nat, s: Store, t: Store, env: Env)
    requires Total(p)
    decreases p
  {
    match p
    case Finish(_) => true
    case Call(name, leaf, k) =>
      var key := c + [Entry(name, n)];
      var o := LeafOutcome(leaf, Get(s, key), key, env);
      o.Some? ==> LeafOutcome(leaf, Get(t, key), key, env) == o && Grows(k[o.value], c, n + 1, s, t, env)
    case Nested(name, body, k) =>
      var key := c + [Entry(name, n)];
      var r := Uninterrupted(body, key, 0, s, env).result;
      && Grows(body, key, 0, s, t, env)
      && (r.Some? ==> Grows(k[ChildOutcome(key, r.value, env)], c, n + 1, s, t, env))
  }

  /**
   The store is one that earlier, possibly cut, invocations can have left: completed child
   contexts are settled and carry the record their result asks for, and there is nothing
   beyond the first operation without an outcome.
   */
  ghost predicate Coherent(p: Prog, c: Path, n: nat, s: Store, env: Env)
    requires Total(p)
    decreases p
  {
    match p
    case Finish(_) => true
    case Call(name, leaf, k) =>
      var key := c + [Entry(name, n)];
      (match LeafOutcome(leaf, Get(s, key), key, env)
       case None => !IsFinal(Get(s, key)) && LeafOk(leaf, Get(s, key), key, env) && Fresh(c, n + 1, s)
       case Some(o) => Coherent(k[o], c, n + 1, s, env))
    case Nested(name, body, k) =>
      var key := c + [Entry(name, n)];
      if key !in s then Fresh(c, n, s)
      else if !Final(s[key]) then
        s[key].kind == ContextKind && Coherent(body, key, 0, s, env) && Fresh(c, n + 1, s)
      else
        var r := Settled(body, key, 0, s, env);
        && r.Some?
        && Completes(s[key], r.value, env)
        && Coherent(k[ChildOutcome(key, r.value, env)], c, n + 1, s, env)
  }

  lemma {:induction false} FreshIsCoherent(p: Prog, c: Path, n: nat, s: Store, env: Env)
    requires Total(p) && Fresh(c, n, s)
    ensures Coherent(p, c, n, s, env)
    decreases p
  {
    match p
    case Finish(_) =>
    case Call(name, leaf, k) =>
      var key := c + [Entry(name, n)];
      assert InRegion(c, n, key);
      match LeafOutcome(leaf, Get(s, key), key, env) {
        case None =>
        case Some(o) => FreshIsCoherent(k[o], c, n + 1, s, env);
      }
    case Nested(name, body, k) =>
      assert InRegion(c, n, c + [Entry(name, n)]);
  }

  /** What lies under operation `n` of `c` belongs to the rest from `n`, not to the rest from `n + 1`. */
  lemma RegionsNest(c: Path, n: nat, e: Entry)
    requires e.counter == n
    ensures forall key :: InRegion(c + [e], 0, key) ==> InRegion(c, n, key) && !InRegion(c, n + 1, key)
  {
    forall key | InRegion(c + [e], 0, key)
      ensures InRegion(c, n, key) && !InRegion(c, n + 1, key)
    {
      assert key[..|c|] == key[..|c| + 1][..|c|];
      assert key[|c|] == key[..|c| + 1][|c|];
    }
  }

  lemma FreshFrame(c: Path, n: nat, s: Store, t: Store)
    requires AgreeOn(c, n, s, t)
    ensures AgreeOn(c, n + 1, s, t)
    ensures Fresh(c, n, s) == Fresh(c, n, t)
    ensures Fresh(c, n + 1, s) == Fresh(c, n + 1, t)
  {
    assert forall key :: InRegion(c, n + 1, key) ==> InRegion(c, n, key);
    forall key | InRegion(c, n, key)
      ensures key in s <==> key in t
    {
      assert Get(s, key) == Get(t, key);
    }
  }

  /** Settled and coherent look at their own region only. */
  lemma {:induction false} FrameRest(p: Prog, c: Path, n: nat, s: Store, t: Store, env: Env)
    requires Total(p) && AgreeOn(c, n, s, t)
    ensures Settled(p, c, n, s, env) == Settled(p, c, n, t, env)
    ensures Coherent(p, c, n, s, env) == Coherent(p, c, n, t, env)
    decreases p
  {
    FreshFrame(c, n, s, t);
    match p
    case Finish(_) =>
    case Call(name, leaf, k) =>
      var key := c + [Entry(name, n)];
      assert InRegion(c, n, key);
      forall o: Outcome {
        FrameRest(k[o], c, n + 1, s, t, env);
      }
    case Nested(name, body, k) =>
      var e := Entry(name, n);
      assert InRegion(c, n, c + [e]) && Get(s, c + [e]) == Get(t, c + [e]);
      RegionsNest(c, n, e);
      FrameRest(body, c + [e], 0, s, t, env);
      forall o: Outcome {
        FrameRest(k[o], c, n + 1, s, t, env);
      }
  }

  lemma {:induction false} SettledIsCoherent(p: Prog, c: Path, n: nat, s: Store, env: Env)
    requires Total(p) && Settled(p, c, n, s, env).Some?
    ensures Coherent(p, c, n, s, env)
    decreases p
  {
    match p
    case Finish(_) =>
    case Call(name, leaf, k) =>
      var key := c + [Entry(name, n)];
      SettledIsCoherent(k[LeafOutcome(leaf, Get(s, key), key, env).value], c, n + 1, s, env);
    case Nested(name, body, k) =>
      var key := c + [Entry(name, n)];
      var r := Settled(body, key, 0, s, env).value;
      SettledIsCoherent(k[ChildOutcome(key, r, env)], c, n + 1, s, env);
  }

  /** A fully recorded run is an uninterrupted one. */
  lemma {:induction false} SettledIsUninterrupted(p: Prog, c: Path, n: nat, s: Store, env: Env)
    requires Total(p) && Settled(p, c, n, s, env).Some?
    ensures Uninterrupted(p, c, n, s, env).result == Settled(p, c, n, s, env)
    decreases p
  {
    match p
    case Finish(_) =>
    case Call(name, leaf, k) =>
      var key := c + [Entry(name, n)];
      SettledIsUninterrupted(k[LeafOutcome(leaf, Get(s, key), key, env).value], c, n + 1, s, env);
    case Nested(name, body, k) =>
      var key := c + [Entry(name, n)];
      SettledIsUninterrupted(body, key, 0, s, env);
      var r := Settled(body, key, 0, s, env).value;
      SettledIsUninterrupted(k[ChildOutcome(key, r, env)], c, n + 1, s, env);
  }

  lemma {:induction false} UninterruptedFrame(p: Prog, c: Path, n: nat, s: Store, t: Store, env: Env)
    requires Total(p) && AgreeOn(c, n, s, t)
    ensures Uninterrupted(p, c, n, s, env) == Uninterrupted(p, c, n, t, env)
    decreases p
  {
    FreshFrame(c, n, s, t);
    match p
    case Finish(_) =>
    case Call(name, leaf, k) =>
      var key := c + [Entry(name, n)];
      assert InRegion(c, n, key);
      forall o: Outcome {
        UninterruptedFrame(k[o], c, n + 1, s, t, env);
      }
    case Nested(name, body, k) =>
      var e := Entry(name, n);
      RegionsNest(c, n, e);
      UninterruptedFrame(body, c + [e], 0, s, t, env);
      forall o: Outcome {
        UninterruptedFrame(k[o], c, n + 1, s, t, env);
      }
  }

  lemma {:induction false} GrowsItself(p: Prog, c: Path, n: nat, s: Store, env: Env)
    requires Total(p)
    ensures Grows(p, c, n, s, s, env)
    decreases p
  {
    match p
    case Finish(_) =>
    case Call(name, leaf, k) =>
      forall o: Outcome {
        GrowsItself(k[o], c, n + 1, s, env);
      }
    case Nested(name, body, k) =>
      GrowsItself(body, c + [Entry(name, n)], 0, s, env);
      forall o: Outcome {
        GrowsItself(k[o], c, n + 1, s, env);
      }
  }

  /** Growth looks at its own region only. */
  lemma {:induction false} GrowsFrame(
      p: Prog, c: Path, n: nat, s: Store, t: Store, s': Store, t': Store, env: Env)
    requires Total(p) && AgreeOn(c, n, s, s') && AgreeOn(c, n, t, t') && Grows(p, c, n, s, t, env)
    ensures Grows(p, c, n, s', t', env)
    decreases p
  {
    FreshFrame(c, n, s, s');
    FreshFrame(c, n, t, t');
    match p
    case Finish(_) =>
    case Call(name, leaf, k) =>
      var key := c + [Entry(name, n)];
      assert InRegion(c, n, key);
      var o := LeafOutcome(leaf, Get(s, key), key, env);
      if o.Some? {
        GrowsFrame(k[o.value], c, n + 1, s, t, s', t', env);
      }
    case Nested(name, body, k) =>
      var e := Entry(name, n);
      RegionsNest(c, n, e);
      UninterruptedFrame(body, c + [e], 0, s, s', env);
      GrowsFrame(body, c + [e], 0, s, t, s', t', env);
      var r := Uninterrupted(body, c + [e], 0, s, env).result;
      if r.Some? {
        GrowsFrame(k[ChildOutcome(c + [e], r.value, env)], c, n + 1, s, t, s', t', env);
      }
  }

  lemma AgreeingGrows(p: Prog, c: Path, n: nat, s: Store, t: Store, env: Env)
    requires Total(p) && AgreeOn(c, n, s, t)
    ensures Grows(p, c, n, s, t, env)
  {
    GrowsItself(p, c, n, s, env);
    GrowsFrame(p, c, n, s, s, s, t, env);
  }

  /** What grows lengthens the uninterrupted run and changes nothing in it. */
  lemma {:induction false} UninterruptedGrows(p: Prog, c: Path, n: nat, s: Store, t: Store, env: Env)
    requires Total(p) && Grows(p, c, n, s, t, env)
    ensures Uninterrupted(p, c, n, s, env).trace <= Uninterrupted(p, c, n, t, env).trace
    ensures Uninterrupted(p, c, n, s, env).result.Some? ==>
              Uninterrupted(p, c, n, t, env) == Uninterrupted(p, c, n, s, env)
    decreases p
  {
    match p
    case Finish(_) =>
    case Call(name, leaf, k) =>
      var key := c + [Entry(name, n)];
      var o := LeafOutcome(leaf, Get(s, key), key, env);
      if o.Some? {
        UninterruptedGrows(k[o.value], c, n + 1, s, t, env);
      }
    case Nested(name, body, k) =>
      var key := c + [Entry(name, n)];
      UninterruptedGrows(body, key, 0, s, t, env);
      var inner := Uninterrupted(body, key, 0, s, env);
      if inner.result.Some? {
        UninterruptedGrows(k[ChildOutcome(key, inner.result.value, env)], c, n + 1, s, t, env);
      }
  }

  lemma {:induction false} GrowsTransitive(p: Prog, c: Path, n: nat, s: Store, t: Store, u: Store, env: Env)
    requires Total(p) && Grows(p, c, n, s, t, env) && Grows(p, c, n, t, u, env)
    ensures Grows(p, c, n, s, u, env)
    decreases p
  {
    match p
    case Finish(_) =>
    case Call(name, leaf, k) =>
      var key := c + [Entry(name, n)];
      var o := LeafOutcome(leaf, Get(s, key), key, env);
      if o.Some? {
        GrowsTransitive(k[o.value], c, n + 1, s, t, u, env);
      }
    case Nested(name, body, k) =>
      var key := c + [Entry(name, n)];
      UninterruptedGrows(body, key, 0, s, t, env);
      GrowsTransitive(body, key, 0, s, t, u, env);
      var r := Uninterrupted(body, key, 0, s, env).result;
      if r.Some? {
        GrowsTransitive(k[ChildOutcome(key, r.value, env)], c, n + 1, s, t, u, env);
      }
  }

  /** Handler code has only been given outcomes of the uninterrupted run. */
  ghost predicate SeenIn(seen: seq<(Path, Outcome)>, trace: seq<(Path, Outcome)>) {
    forall e :: e in seen ==> e in trace
  }

  // ----- One invocation keeps the store coherent -----

  /** Records only grow: a final record never changes again. */
  ghost predicate Extends(s: Store, t: Store) {
    forall key :: key in s ==> key in t && (Final(s[key]) ==> t[key] == s[key])
  }

  lemma ExtendsTransitive(s: Store, t: Store, u: Store)
    requires Extends(s, t) && Extends(t, u)
    ensures Extends(s, u)
  {
  }

  ghost predicate ResumableFrom(p: Prog, c: Path, n: nat, w: World, live: Store)
    requires Total(p)
  {
    && KeepsLimits(p) && CodecRoundTrips(w.env)
    && Coherent(p, c, n, live, w.env)
    && AgreeOn(c, n, w.snap, live)
    && (!ParentFinished(c, live) || Settled(p, c, n, live, w.env).Some?)
  }

  ghost predicate KeepsPromises(p: Prog, c: Path, n: nat, w: World, live: Store, fuel: nat, r: Run)
    requires Total(p)
  {
    && AgreeOutside(c, n, live, r.live)
    && Extends(live, r.live)
    && Coherent(p, c, n, r.live, w.env)
    && r.ended != Stopped(Blocked)
    && (r.ended.Done? ==> Settled(p, c, n, r.live, w.env) == Some(r.ended.o))
    && (Settled(p, c, n, live, w.env).Some? ==>
          Replays(r, Settled(p, c, n, live, w.env).value, live, fuel, Cost(p, c, n, live, w.env)))
    && SeenIn(r.seen, Uninterrupted(p, c, n, r.live, w.env).trace)
  }

  /** Two stores that differ at `key` at most. */
  ghost predicate OnlyAt(key: Path, s: Store, t: Store) {
    forall other :: other != key ==> Get(t, other) == Get(s, other)
  }

  lemma OpenRecordChanges(live: Store, key: Path, after: Option<Record>)
    requires !IsFinal(Get(live, key)) && (key in live ==> after.Some?)
    ensures OnlyAt(key, live, Put(live, key, after)) && Extends(live, Put(live, key, after))
    ensures Get(Put(live, key, after), key) == after
  {
  }

  /**
   A leaf operation without an outcome yet: cut, it is still one, or one whose check will fail
   again; returning, it leaves a record that determines its outcome.
   */
  lemma OpenLeafStep(name: Option<string>, leaf: Leaf, c: Path, n: nat, w: World, live: Store, fuel: nat)
    requires CodecRoundTrips(w.env) && KeepsLimit(leaf)
    requires var key := c + [Entry(name, n)];
             && Get(w.snap, key) == Get(live, key)
             && LeafOutcome(leaf, Get(live, key), key, w.env).None?
             && LeafOk(leaf, Get(live, key), key, w.env)
             && !IsFinal(Get(live, key)) && !ParentFinished(c, live)
    ensures var key := c + [Entry(name, n)];
            var r := LeafRun(leaf, c, key, w, live, fuel);
            && r.ended != Stopped(Blocked) && r.seen == []
            && OnlyAt(key, live, r.live)
            && Extends(live, r.live)
            && (r.ended.Stopped? ==> !IsFinal(Get(r.live, key)) && LeafOk(leaf, Get(r.live, key), key, w.env))
            && (r.ended.Done? ==> LeafOutcome(leaf, Get(r.live, key), key, w.env) == Some(r.ended.o))
  {
    var key := c + [Entry(name, n)];
    var rec := Get(live, key);
    var plan := LeafPlan(leaf, rec, key, w.env, w.body(fuel));
    var m := Min(fuel, |plan.effects|);
    PerformIsAPrefix(c, Entry(name, n), plan.effects, live, fuel);
    OpenRecordChanges(live, key, ApplyEffects(rec, plan.effects[..m]));
    LeafRecordsWhatItReturns(leaf, rec, key, w.env, w.body(fuel), m);
    assert plan.effects[..|plan.effects|] == plan.effects;
  }

  /** Entering a body changes no record. */
  lemma EnterOnly(c: Path, key: Path, attempt: nat, live: Store, fuel: nat)
    requires key in live
    ensures Perform(c, key, [EnterBody(attempt)], live, fuel)
         == if fuel == 0 then Run(Stopped(Crashed), live, 0, []) else Run(Done(Ok(UNIT)), live, fuel - 1, [])
  {
    assert Put(live, key, ApplyEffect(Get(live, key), EnterBody(attempt))) == live;
    assert [EnterBody(attempt)][1..] == [];
  }

  /** One whose outcome the records determine: it is replayed. */
  lemma SettledLeafStep(leaf: Leaf, c: Path, key: Path, w: World, live: Store, fuel: nat)
    requires Get(w.snap, key) == Get(live, key) && LeafOutcome(leaf, Get(live, key), key, w.env).Some?
    ensures var r := LeafRun(leaf, c, key, w, live, fuel);
            Replays(r, LeafOutcome(leaf, Get(live, key), key, w.env).value, live, fuel, LeafCost(leaf, Get(live, key), w.env))
  {
    SettledLeafHasNoEffects(leaf, Get(live, key), key, w.env, w.body(fuel));
    if FailsAgain(leaf, Get(live, key), w.env) {
      EnterOnly(c, key, AttemptOf(Get(live, key)), live, fuel);
    }
  }

  /** What one leaf operation does to the store. */
  lemma LeafStep(name: Option<string>, leaf: Leaf, c: Path, n: nat, w: World, live: Store, fuel: nat)
    requires CodecRoundTrips(w.env) && KeepsLimit(leaf)
    requires var key := c + [Entry(name, n)];
             && Get(w.snap, key) == Get(live, key)
             && (LeafOutcome(leaf, Get(live, key), key, w.env).Some?
                 || (!IsFinal(Get(live, key)) && LeafOk(leaf, Get(live, key), key, w.env) && !ParentFinished(c, live)))
    ensures var key := c + [Entry(name, n)];
            var r := LeafRun(leaf, c, key, w, live, fuel);
            var before := LeafOutcome(leaf, Get(live, key), key, w.env);
            && r.ended != Stopped(Blocked) && r.seen == []
            && OnlyAt(key, live, r.live)
            && Extends(live, r.live)
            && (before.Some? ==> Replays(r, before.value, live, fuel, LeafCost(leaf, Get(live, key), w.env)))
            && (r.ended.Stopped? && before.None? ==>
                  !IsFinal(Get(r.live, key)) && LeafOk(leaf, Get(r.live, key), key, w.env))
            && (r.ended.Done? ==> LeafOutcome(leaf, Get(r.live, key), key, w.env) == Some(r.ended.o))
  {
    var key := c + [Entry(name, n)];
    if LeafOutcome(leaf, Get(live, key), key, w.env).Some? {
      SettledLeafStep(leaf, c, key, w, live, fuel);
    } else {
      OpenLeafStep(name, leaf, c, n, w, live, fuel);
    }
  }

  /** The part of `Coherent` that concerns child context `key` of `c`. */
  ghost predicate ChildCoherent(body: Prog, c: Path, n: nat, key: Path, s: Store, env: Env)
    requires Total(body)
  {
    if key !in s then Fresh(c, n, s)
    else if !Final(s[key]) then
      s[key].kind == ContextKind && Coherent(body, key, 0, s, env) && Fresh(c, n + 1, s)
    else
      var r := Settled(body, key, 0, s, env);
      r.Some? && Completes(s[key], r.value, env)
  }

  ghost predicate ChildKeepsPromises(body: Prog, c: Path, n: nat, key: Path, w: World, live: Store, fuel: nat, r: Run)
    requires Total(body)
  {
    && (forall other :: other != key && !InRegion(key, 0, other) ==> Get(r.live, other) == Get(live, other))
    && Extends(live, r.live)
    && r.ended != Stopped(Blocked)
    && ChildCoherent(body, c, n, key, r.live, w.env)
    && (r.ended.Stopped? ==> IsFinal(Get(live, key)) || !IsFinal(Get(r.live, key)))
    && (r.ended.Done? ==>
          var x := Settled(body, key, 0, r.live, w.env);
          IsFinal(Get(r.live, key)) && x.Some? && r.ended.o == ChildOutcome(key, x.value, w.env))
    && (IsFinal(Get(live, key)) ==>
          && r.live == live
          && (var cost := ChildCost(body, key, live, w.env);
              if cost <= fuel then r.ended.Done? && r.fuel == fuel - cost else r.ended == Stopped(Crashed)))
    && SeenIn(r.seen, Uninterrupted(body, key, 0, r.live, w.env).trace)
  }

  /** A write by context `c` to the record of its open child `key` leaves the child's inside alone. */
  lemma ChildWrite(body: Prog, c: Path, n: nat, key: Path, e: Entry, s: Store, rec: Record, env: Env)
    requires Total(body) && key == c + [e] && e.counter == n
    ensures var t := s[key := rec];
            && Settled(body, key, 0, t, env) == Settled(body, key, 0, s, env)
            && Coherent(body, key, 0, t, env) == Coherent(body, key, 0, s, env)
            && (Fresh(c, n + 1, s) ==> Fresh(c, n + 1, t))
  {
    FrameRest(body, key, 0, s, s[key := rec], env);
    assert !InRegion(c, n + 1, key);
  }

  lemma FreshLater(c: Path, n: nat, s: Store)
    ensures Fresh(c, n, s) ==> Fresh(c, n + 1, s)
  {
    assert forall k :: InRegion(c, n + 1, k) ==> InRegion(c, n, k);
  }

  /** The START of a child context that has no record yet, or the crash before it. */
  lemma StartedChild(body: Prog, c: Path, n: nat, e: Entry, live: Store, fuel: nat, env: Env)
    requires Total(body) && e.counter == n
    requires c + [e] !in live && Fresh(c, n, live) && !ParentFinished(c, live)
    ensures var key := c + [e];
            var r := Perform(c, key, ChildStart(), live, fuel);
            && (r.ended.Done? || (r.ended == Stopped(Crashed) && r.live == live))
            && (r.ended.Done? ==>
                  && Coherent(body, key, 0, r.live, env) && Fresh(c, n + 1, r.live)
                  && OnlyAt(key, live, r.live) && Extends(live, r.live)
                  && key in r.live && r.live[key].kind == ContextKind && !Final(r.live[key]))
  {
    var key := c + [e];
    var r := Perform(c, key, ChildStart(), live, fuel);
    PerformIsAPrefix(c, e, ChildStart(), live, fuel);
    RegionsNest(c, n, e);
    assert ChildStart()[..0] == [] && ChildStart()[..1] == ChildStart();
    if r.ended.Done? {
      var rec := ApplyWrite(None, Write(ContextKind, Start, None, None, false));
      assert ApplyEffects(None, []) == None;
      assert r.live == live[key := rec];
      FreshLater(c, n, live);
      assert Fresh(key, 0, live);
      FreshIsCoherent(body, key, 0, live, env);
      ChildWrite(body, c, n, key, e, live, rec, env);
    } else {
      assert r.live == live;
    }
  }

  /** The completion of a child context whose code ended with `x`, or the crash before it. */
  lemma ChildCompletes(body: Prog, c: Path, n: nat, e: Entry, live: Store, fuel: nat, x: Outcome, env: Env)
    requires Total(body) && e.counter == n
    requires c + [e] in live && !Final(live[c + [e]])
    requires Settled(body, c + [e], 0, live, env) == Some(x)
    requires !ParentFinished(c, live)
    ensures var key := c + [e];
            var r := Perform(c, key, [Persist(ChildEnd(x, env))], live, fuel);
            && (r.ended.Done? || (r.ended == Stopped(Crashed) && r.live == live))
            && (r.ended.Done? ==>
                  && Settled(body, key, 0, r.live, env) == Some(x)
                  && OnlyAt(key, live, r.live) && Extends(live, r.live)
                  && key in r.live && Final(r.live[key]) && Completes(r.live[key], x, env))
  {
    var key := c + [e];
    var es := [Persist(ChildEnd(x, env))];
    var r := Perform(c, key, es, live, fuel);
    PerformIsAPrefix(c, e, es, live, fuel);
    assert es[..0] == [] && es[..1] == es;
    if r.ended.Done? {
      var rec := ApplyWrite(Some(live[key]), ChildEnd(x, env));
      assert ApplyEffects(Some(live[key]), []) == Some(live[key]);
      assert r.live == live[key := rec];
      assert x.Ok? ==> Completes(rec, x, env);
      assert x.Err? ==> Completes(rec, x, env);
      ChildWrite(body, c, n, key, e, live, rec, env);
    } else {
      assert r.live == live;
    }
  }

  /** A completed child context whose outcome is in its record. */
  lemma RecordedChild(body: Prog, c: Path, n: nat, e: Entry, w: World, live: Store, fuel: nat)
    requires Total(body) && CodecRoundTrips(w.env)
    requires ChildCoherent(body, c, n, c + [e], live, w.env) && IsFinal(Get(live, c + [e]))
    requires Get(w.snap, c + [e]) == Get(live, c + [e])
    requires !EvaluateReplay(Get(live, c + [e]), c + [e], w.env).ReplayChildren?
    ensures ChildKeepsPromises(body, c, n, c + [e], w, live, fuel, ExecChild(body, c, c + [e], w, live, fuel))
  {
    var x := Settled(body, c + [e], 0, live, w.env).value;
    assert EvaluateReplay(Get(live, c + [e]), c + [e], w.env) == ReturnRecorded(ChildOutcome(c + [e], x, w.env));
  }

  /** A completed child context that is re-run for its value. */
  lemma ReplayedChild(body: Prog, c: Path, n: nat, e: Entry, w: World, live: Store, fuel: nat, r: Run)
    requires Total(body) && CodecRoundTrips(w.env)
    requires ChildCoherent(body, c, n, c + [e], live, w.env) && IsFinal(Get(live, c + [e]))
    requires EvaluateReplay(Get(live, c + [e]), c + [e], w.env).ReplayChildren?
    requires KeepsPromises(body, c + [e], 0, w, live, fuel, r)
    ensures ChildKeepsPromises(body, c, n, c + [e], w, live, fuel, r)
  {
  }

  lemma {:induction false} ChildRuns(
      body: Prog, c: Path, n: nat, e: Entry, w: World, live: Store, fuel: nat)
    requires Total(body) && KeepsLimits(body) && e.counter == n
    requires CodecRoundTrips(w.env) && AgreeOn(c, n, w.snap, live)
    requires ChildCoherent(body, c, n, c + [e], live, w.env)
    requires !ParentFinished(c, live) || IsFinal(Get(live, c + [e]))
    ensures ChildKeepsPromises(body, c, n, c + [e], w, live, fuel, ExecChild(body, c, c + [e], w, live, fuel))
    decreases body, 2
  {
    var key := c + [e];
    assert InRegion(c, n, key) && Get(w.snap, key) == Get(live, key);
    RegionsNest(c, n, e);
    if IsFinal(Get(live, key)) {
      if EvaluateReplay(Get(live, key), key, w.env).ReplayChildren? {
        SettledIsCoherent(body, key, 0, live, w.env);
        ExecKeepsPromises(body, key, 0, w, live, fuel);
        ReplayedChild(body, c, n, e, w, live, fuel, Exec(body, key, 0, w, live, fuel));
      } else {
        RecordedChild(body, c, n, e, w, live, fuel);
      }
    } else {
      ChildExecutes(body, c, n, e, w, live, fuel);
    }
  }

  /** Before its body runs, an open child context has a Started record, or the invocation is cut. */
  lemma ChildStarts(body: Prog, c: Path, n: nat, e: Entry, w: World, live: Store, fuel: nat)
    requires Total(body) && KeepsLimits(body) && e.counter == n
    requires CodecRoundTrips(w.env) && AgreeOn(c, n, w.snap, live)
    requires ChildCoherent(body, c, n, c + [e], live, w.env)
    requires !ParentFinished(c, live) && !IsFinal(Get(live, c + [e]))
    ensures var key := c + [e];
            var r0 := Perform(c, key, if key in live then [] else ChildStart(), live, fuel);
            && (r0.ended.Stopped? ==> r0.ended == Stopped(Crashed) && r0.live == live)
            && (r0.ended.Done? ==>
                  && OnlyAt(key, live, r0.live) && Extends(live, r0.live)
                  && key in r0.live && !Final(r0.live[key]) && r0.live[key].kind == ContextKind
                  && Fresh(c, n + 1, r0.live)
                  && ResumableFrom(body, key, 0, w, r0.live))
  {
    var key := c + [e];
    RegionsNest(c, n, e);
    if key !in live {
      StartedChild(body, c, n, e, live, fuel, w.env);
    }
  }

  lemma FreshAfterChild(c: Path, n: nat, e: Entry, s: Store, t: Store)
    requires e.counter == n && Fresh(c, n + 1, s)
    requires forall other :: other != c + [e] && !InRegion(c + [e], 0, other) ==> Get(t, other) == Get(s, other)
    ensures Fresh(c, n + 1, t)
  {
    RegionsNest(c, n, e);
    forall k | InRegion(c, n + 1, k)
      ensures k !in t
    {
      assert Get(t, k) == Get(s, k);
    }
  }

  /** The end of a child context whose body returned. */
  lemma ChildBodyReturned(body: Prog, c: Path, n: nat, e: Entry, w: World, live: Store, fuel: nat, r1: Run)
    requires Total(body) && e.counter == n && r1.ended.Done?
    requires !ParentFinished(c, r1.live) && !IsFinal(Get(live, c + [e])) && !IsFinal(Get(r1.live, c + [e]))
    requires c + [e] in r1.live && r1.live[c + [e]].kind == ContextKind
    requires forall other :: other != c + [e] && !InRegion(c + [e], 0, other) ==> Get(r1.live, other) == Get(live, other)
    requires Extends(live, r1.live) && Fresh(c, n + 1, r1.live)
    requires Coherent(body, c + [e], 0, r1.live, w.env)
    requires Settled(body, c + [e], 0, r1.live, w.env) == Some(r1.ended.o)
    requires SeenIn(r1.seen, Uninterrupted(body, c + [e], 0, r1.live, w.env).trace)
    ensures ChildKeepsPromises(body, c, n, c + [e], w, live, fuel, FinishChild(r1, c, c + [e], w.env))
  {
    var key := c + [e];
    ChildCompletes(body, c, n, e, r1.live, r1.fuel, r1.ended.o, w.env);
    var end := FinishChild(r1, c, key, w.env);
    ExtendsTransitive(live, r1.live, end.live);
    UninterruptedFrame(body, key, 0, r1.live, end.live, w.env);
  }

  /** The end of a child context whose body ran on the store `r0` left by its START. */
  lemma ChildBodyRan(
      body: Prog, c: Path, n: nat, e: Entry, w: World, live: Store, fuel: nat, r0: Run, r1: Run)
    requires Total(body) && e.counter == n
    requires !ParentFinished(c, live) && !IsFinal(Get(live, c + [e]))
    requires OnlyAt(c + [e], live, r0.live) && Extends(live, r0.live)
    requires c + [e] in r0.live && !Final(r0.live[c + [e]]) && r0.live[c + [e]].kind == ContextKind
    requires Fresh(c, n + 1, r0.live)
    requires KeepsPromises(body, c + [e], 0, w, r0.live, r0.fuel, r1)
    ensures ChildKeepsPromises(body, c, n, c + [e], w, live, fuel, FinishChild(r1, c, c + [e], w.env))
  {
    var key := c + [e];
    assert Get(r1.live, key) == Get(r0.live, key);
    assert r1.live[key] == r0.live[key];
    FreshAfterChild(c, n, e, r0.live, r1.live);
    assert Get(r1.live, c) == Get(live, c);
    ExtendsTransitive(live, r0.live, r1.live);
    if r1.ended.Done? {
      ChildBodyReturned(body, c, n, e, w, live, fuel, r1);
    }
  }

  lemma {:induction false} ChildExecutes(
      body: Prog, c: Path, n: nat, e: Entry, w: World, live: Store, fuel: nat)
    requires Total(body) && KeepsLimits(body) && e.counter == n
    requires CodecRoundTrips(w.env) && AgreeOn(c, n, w.snap, live)
    requires ChildCoherent(body, c, n, c + [e], live, w.env)
    requires !ParentFinished(c, live) && !IsFinal(Get(live, c + [e]))
    ensures ChildKeepsPromises(body, c, n, c + [e], w, live, fuel, ExecChild(body, c, c + [e], w, live, fuel))
    decreases body, 1
  {
    var key := c + [e];
    assert InRegion(c, n, key) && Get(w.snap, key) == Get(live, key);
    assert key !in w.snap <==> key !in live;
    var r0 := Perform(c, key, if key in w.snap then [] else ChildStart(), live, fuel);
    ChildStarts(body, c, n, e, w, live, fuel);
    if r0.ended.Done? {
      ExecKeepsPromises(body, key, 0, w, r0.live, r0.fuel);
      ChildBodyRan(body, c, n, e, w, live, fuel, r0, Exec(body, key, 0, w, r0.live, r0.fuel));
    }
  }

  /** An operation that took the store from `live` to `mid`, then the rest from `n + 1`. */
  lemma ChainStores(c: Path, n: nat, e: Entry, live: Store, mid: Store, end: Store)
    requires e.counter == n
    requires forall other :: other != c + [e] && !InRegion(c + [e], 0, other) ==> Get(mid, other) == Get(live, other)
    requires Extends(live, mid) && Extends(mid, end) && AgreeOutside(c, n + 1, mid, end)
    ensures AgreeOutside(c, n, live, end) && Extends(live, end)
    ensures Get(end, c + [e]) == Get(mid, c + [e]) && AgreeOn(c + [e], 0, mid, end)
  {
    RegionsNest(c, n, e);
    forall k | !InRegion(c, n, k)
      ensures Get(live, k) == Get(end, k)
    {
      assert InRegion(c, n, c + [e]) && !InRegion(c, n + 1, k);
      assert Get(mid, k) == Get(end, k);
    }
    assert !InRegion(c, n + 1, c + [e]);
  }

  /** The rest after operation `e` starts where an invocation may start. */
  lemma RestIsResumable(rest: Prog, c: Path, n: nat, e: Entry, w: World, live: Store, mid: Store)
    requires Total(rest) && KeepsLimits(rest) && e.counter == n
    requires CodecRoundTrips(w.env) && AgreeOn(c, n, w.snap, live)
    requires forall other :: other != c + [e] && !InRegion(c + [e], 0, other) ==> Get(mid, other) == Get(live, other)
    requires Coherent(rest, c, n + 1, mid, w.env)
    requires !ParentFinished(c, live) || Settled(rest, c, n + 1, mid, w.env).Some?
    ensures ResumableFrom(rest, c, n + 1, w, mid)
  {
    RegionsNest(c, n, e);
    forall k | InRegion(c, n + 1, k)
      ensures Get(w.snap, k) == Get(mid, k)
    {
      assert InRegion(c, n, k);
    }
    assert Get(mid, c) == Get(live, c);
  }

  /** Every invocation keeps the store coherent, whatever its fuel and its bodies' results. */
  lemma {:induction false} ExecKeepsPromises(p: Prog, c: Path, n: nat, w: World, live: Store, fuel: nat)
    requires Total(p) && ResumableFrom(p, c, n, w, live)
    ensures KeepsPromises(p, c, n, w, live, fuel, Exec(p, c, n, w, live, fuel))
    decreases p, 0
  {
    match p
    case Finish(_) =>
    case Call(name, leaf, k) => CallKeepsPromises(p, c, n, w, live, fuel);
    case Nested(name, body, k) => NestedKeepsPromises(p, c, n, w, live, fuel);
  }

  /** After a leaf operation that returned, the rest starts where an invocation may start. */
  lemma CallContinues(p: Prog, c: Path, n: nat, w: World, live: Store, fuel: nat)
    requires Total(p) && p.Call? && ResumableFrom(p, c, n, w, live)
    requires LeafRun(p.leaf, c, c + [Entry(p.name, n)], w, live, fuel).ended.Done?
    ensures var key := c + [Entry(p.name, n)];
            var r := LeafRun(p.leaf, c, key, w, live, fuel);
            && LeafOutcome(p.leaf, Get(r.live, key), key, w.env) == Some(r.ended.o)
            && ResumableFrom(p.k[r.ended.o], c, n + 1, w, r.live)
  {
    var e := Entry(p.name, n);
    var key := c + [e];
    assert InRegion(c, n, key);
    LeafStep(p.name, p.leaf, c, n, w, live, fuel);
    var r := LeafRun(p.leaf, c, key, w, live, fuel);
    var rest := p.k[r.ended.o];
    if LeafOutcome(p.leaf, Get(live, key), key, w.env).None? {
      FreshAfterChild(c, n, e, live, r.live);
      FreshIsCoherent(rest, c, n + 1, r.live, w.env);
    }
    RestIsResumable(rest, c, n, e, w, live, r.live);
  }

  /** From the promises of the rest after a leaf operation to those of the whole. */
  lemma CallConcludes(
      p: Prog, c: Path, n: nat, w: World, live: Store, fuel: nat, r: Run, o: Outcome, end: Run)
    requires Total(p) && p.Call?
    requires KeepsPromises(p.k[o], c, n + 1, w, r.live, r.fuel, end)
    requires var key := c + [Entry(p.name, n)];
             var before := LeafOutcome(p.leaf, Get(live, key), key, w.env);
             && OnlyAt(key, live, r.live)
             && Extends(live, r.live)
             && r.ended == Done(o)
             && LeafOutcome(p.leaf, Get(r.live, key), key, w.env) == Some(o)
             && (before.Some? ==> Replays(r, before.value, live, fuel, LeafCost(p.leaf, Get(live, key), w.env)))
    ensures KeepsPromises(p, c, n, w, live, fuel, Then(o, c + [Entry(p.name, n)], [], end))
  {
    ChainStores(c, n, Entry(p.name, n), live, r.live, end.live);
  }

  /** A run that stops at a leaf operation leaves the store resumable. */
  lemma CallStops(p: Prog, c: Path, n: nat, w: World, live: Store, fuel: nat)
    requires Total(p) && p.Call? && ResumableFrom(p, c, n, w, live)
    requires LeafRun(p.leaf, c, c + [Entry(p.name, n)], w, live, fuel).ended.Stopped?
    ensures KeepsPromises(p, c, n, w, live, fuel, LeafRun(p.leaf, c, c + [Entry(p.name, n)], w, live, fuel))
  {
    var e := Entry(p.name, n);
    var key := c + [e];
    assert InRegion(c, n, key);
    LeafStep(p.name, p.leaf, c, n, w, live, fuel);
    var r := LeafRun(p.leaf, c, key, w, live, fuel);
    if LeafOutcome(p.leaf, Get(live, key), key, w.env).None? {
      FreshAfterChild(c, n, e, live, r.live);
      var after := LeafOutcome(p.leaf, Get(r.live, key), key, w.env);
      if after.Some? {
        FreshIsCoherent(p.k[after.value], c, n + 1, r.live, w.env);
      }
    }
  }

  lemma {:induction false} CallKeepsPromises(p: Prog, c: Path, n: nat, w: World, live: Store, fuel: nat)
    requires Total(p) && p.Call? && ResumableFrom(p, c, n, w, live)
    ensures KeepsPromises(p, c, n, w, live, fuel, Exec(p, c, n, w, live, fuel))
    decreases p, 0, 0
  {
    var key := c + [Entry(p.name, n)];
    assert InRegion(c, n, key);
    var r := LeafRun(p.leaf, c, key, w, live, fuel);
    if r.ended.Done? {
      var o := r.ended.o;
      LeafStep(p.name, p.leaf, c, n, w, live, fuel);
      CallContinues(p, c, n, w, live, fuel);
      ExecKeepsPromises(p.k[o], c, n + 1, w, r.live, r.fuel);
      CallConcludes(p, c, n, w, live, fuel, r, o, Exec(p.k[o], c, n + 1, w, r.live, r.fuel));
    } else {
      CallStops(p, c, n, w, live, fuel);
    }
  }

  lemma {:induction false} NestedKeepsPromises(p: Prog, c: Path, n: nat, w: World, live: Store, fuel: nat)
    requires Total(p) && p.Nested? && ResumableFrom(p, c, n, w, live)
    ensures KeepsPromises(p, c, n, w, live, fuel, Exec(p, c, n, w, live, fuel))
    decreases p, 0, 1
  {
    var e := Entry(p.name, n);
    var key := c + [e];
    assert InRegion(c, n, key);
    assert ChildCoherent(p.body, c, n, key, live, w.env);
    ChildRuns(p.body, c, n, e, w, live, fuel);
    var r := ExecChild(p.body, c, key, w, live, fuel);
    if r.ended.Done? {
      NestedContinues(p, c, n, w, live, fuel, r);
    } else {
      assert Coherent(p, c, n, r.live, w.env);
      RegionsNest(c, n, e);
    }
  }

  /** After a child context that returned, the rest starts where an invocation may start. */
  lemma NestedRest(p: Prog, c: Path, n: nat, w: World, live: Store, fuel: nat, r: Run)
    requires Total(p) && p.Nested? && ResumableFrom(p, c, n, w, live) && r.ended.Done?
    requires ChildKeepsPromises(p.body, c, n, c + [Entry(p.name, n)], w, live, fuel, r)
    ensures ResumableFrom(p.k[r.ended.o], c, n + 1, w, r.live)
  {
    var e := Entry(p.name, n);
    var rest := p.k[r.ended.o];
    if !IsFinal(Get(live, c + [e])) {
      FreshLater(c, n, live);
      FreshAfterChild(c, n, e, live, r.live);
      FreshIsCoherent(rest, c, n + 1, r.live, w.env);
    }
    RestIsResumable(rest, c, n, e, w, live, r.live);
  }

  /** A settled child context and a settled rest are replayed as a whole. */
  lemma NestedReplays(p: Prog, c: Path, n: nat, w: World, live: Store, fuel: nat, r: Run, end: Run)
    requires Total(p) && p.Nested? && r.ended.Done?
    requires ChildKeepsPromises(p.body, c, n, c + [Entry(p.name, n)], w, live, fuel, r)
    requires KeepsPromises(p.k[r.ended.o], c, n + 1, w, r.live, r.fuel, end)
    requires Settled(p, c, n, live, w.env).Some?
    ensures Replays(Then(r.ended.o, c + [Entry(p.name, n)], r.seen, end), Settled(p, c, n, live, w.env).value,
                    live, fuel, Cost(p, c, n, live, w.env))
  {
  }

  /** From the promises of the rest after a child context to those of the whole. */
  lemma NestedConcludes(p: Prog, c: Path, n: nat, w: World, live: Store, fuel: nat, r: Run, end: Run)
    requires Total(p) && p.Nested? && r.ended.Done?
    requires ChildKeepsPromises(p.body, c, n, c + [Entry(p.name, n)], w, live, fuel, r)
    requires KeepsPromises(p.k[r.ended.o], c, n + 1, w, r.live, r.fuel, end)
    ensures KeepsPromises(p, c, n, w, live, fuel, Then(r.ended.o, c + [Entry(p.name, n)], r.seen, end))
  {
    var e := Entry(p.name, n);
    if Settled(p, c, n, live, w.env).Some? {
      NestedReplays(p, c, n, w, live, fuel, r, end);
    }
    ChainStores(c, n, e, live, r.live, end.live);
    FrameRest(p.body, c + [e], 0, r.live, end.live, w.env);
    UninterruptedFrame(p.body, c + [e], 0, r.live, end.live, w.env);
    SettledIsUninterrupted(p.body, c + [e], 0, end.live, w.env);
  }

  lemma {:induction false} NestedContinues(p: Prog, c: Path, n: nat, w: World, live: Store, fuel: nat, r: Run)
    requires Total(p) && p.Nested? && ResumableFrom(p, c, n, w, live)
    requires var key := c + [Entry(p.name, n)];
             && r == ExecChild(p.body, c, key, w, live, fuel)
             && r.ended.Done?
             && ChildKeepsPromises(p.body, c, n, key, w, live, fuel, r)
    ensures KeepsPromises(p, c, n, w, live, fuel, Exec(p, c, n, w, live, fuel))
    decreases p, 0, 0
  {
    NestedRest(p, c, n, w, live, fuel, r);
    ExecKeepsPromises(p.k[r.ended.o], c, n + 1, w, r.live, r.fuel);
    NestedConcludes(p, c, n, w, live, fuel, r, Exec(p.k[r.ended.o], c, n + 1, w, r.live, r.fuel));
  }

  // ----- One invocation changes no outcome -----

  lemma PerformWritesOnly(c: Path, key: Path, es: seq<Effect>, live: Store, fuel: nat)
    ensures OnlyAt(key, live, Perform(c, key, es, live, fuel).live)
    decreases |es|
  {
    if es != [] && fuel > 0 && !(es[0].Persist? && ParentFinished(c, live)) {
      PerformWritesOnly(c, key, es[1..], Put(live, key, ApplyEffect(Get(live, key), es[0])), fuel - 1);
    }
  }

  lemma FinishWritesOnly(r: Run, c: Path, key: Path, env: Env)
    ensures OnlyAt(key, r.live, FinishChild(r, c, key, env).live)
  {
    if r.ended.Done? {
      PerformWritesOnly(c, key, [Persist(ChildEnd(r.ended.o, env))], r.live, r.fuel);
    }
  }

  /** An invocation changes no outcome that the store it found determines. */
  lemma {:induction false} ExecGrows(p: Prog, c: Path, n: nat, w: World, live: Store, fuel: nat)
    requires Total(p) && ResumableFrom(p, c, n, w, live)
    ensures Grows(p, c, n, live, Exec(p, c, n, w, live, fuel).live, w.env)
    decreases p, 0
  {
    match p
    case Finish(_) =>
    case Call(name, leaf, k) => CallGrows(p, c, n, w, live, fuel);
    case Nested(name, body, k) => NestedGrows(p, c, n, w, live, fuel);
  }

  lemma {:induction false} CallGrows(p: Prog, c: Path, n: nat, w: World, live: Store, fuel: nat)
    requires Total(p) && p.Call? && ResumableFrom(p, c, n, w, live)
    ensures Grows(p, c, n, live, Exec(p, c, n, w, live, fuel).live, w.env)
    decreases p, 0, 0
  {
    var key := c + [Entry(p.name, n)];
    assert InRegion(c, n, key) && !InRegion(c, n + 1, key);
    if LeafOutcome(p.leaf, Get(live, key), key, w.env).Some? {
      LeafStep(p.name, p.leaf, c, n, w, live, fuel);
      var r := LeafRun(p.leaf, c, key, w, live, fuel);
      if r.ended.Done? {
        CallContinues(p, c, n, w, live, fuel);
        ExecKeepsPromises(p.k[r.ended.o], c, n + 1, w, r.live, r.fuel);
        ExecGrows(p.k[r.ended.o], c, n + 1, w, r.live, r.fuel);
      } else {
        GrowsItself(p, c, n, live, w.env);
      }
    }
  }

  lemma OutsideAgrees(c: Path, n: nat, e: Entry, live: Store, mid: Store)
    requires e.counter == n
    requires forall other :: other != c + [e] && !InRegion(c + [e], 0, other) ==> Get(mid, other) == Get(live, other)
    ensures AgreeOn(c, n + 1, live, mid)
  {
    RegionsNest(c, n, e);
  }

  lemma NestedGrowsOn(p: Prog, c: Path, n: nat, w: World, live: Store, fuel: nat, r: Run, end: Store)
    requires Total(p) && p.Nested? && r.ended.Done?
    requires ChildKeepsPromises(p.body, c, n, c + [Entry(p.name, n)], w, live, fuel, r)
    requires Grows(p.body, c + [Entry(p.name, n)], 0, live, r.live, w.env)
    requires Grows(p.k[r.ended.o], c, n + 1, r.live, end, w.env)
    requires AgreeOutside(c, n + 1, r.live, end) && Extends(r.live, end)
    ensures Grows(p, c, n, live, end, w.env)
  {
    var e := Entry(p.name, n);
    var key := c + [e];
    ChainStores(c, n, e, live, r.live, end);
    GrowsFrame(p.body, key, 0, live, r.live, live, end, w.env);
    var inner := Uninterrupted(p.body, key, 0, live, w.env).result;
    if inner.Some? {
      UninterruptedGrows(p.body, key, 0, live, r.live, w.env);
      SettledIsUninterrupted(p.body, key, 0, r.live, w.env);
      OutsideAgrees(c, n, e, live, r.live);
      GrowsFrame(p.k[r.ended.o], c, n + 1, r.live, end, live, end, w.env);
    }
  }

  lemma {:induction false} NestedGrows(p: Prog, c: Path, n: nat, w: World, live: Store, fuel: nat)
    requires Total(p) && p.Nested? && ResumableFrom(p, c, n, w, live)
    ensures Grows(p, c, n, live, Exec(p, c, n, w, live, fuel).live, w.env)
    decreases p, 0, 0
  {
    var e := Entry(p.name, n);
    var key := c + [e];
    var r := ExecChild(p.body, c, key, w, live, fuel);
    assert InRegion(c, n, key) && ChildCoherent(p.body, c, n, key, live, w.env);
    ChildRuns(p.body, c, n, e, w, live, fuel);
    ChildGrows(p.body, c, n, e, w, live, fuel);
    if r.ended.Done? {
      var rest := p.k[r.ended.o];
      NestedRest(p, c, n, w, live, fuel, r);
      ExecKeepsPromises(rest, c, n + 1, w, r.live, r.fuel);
      ExecGrows(rest, c, n + 1, w, r.live, r.fuel);
      NestedGrowsOn(p, c, n, w, live, fuel, r, Exec(rest, c, n + 1, w, r.live, r.fuel).live);
    } else {
      var inner := Uninterrupted(p.body, key, 0, live, w.env).result;
      if inner.Some? {
        OutsideAgrees(c, n, e, live, r.live);
        AgreeingGrows(p.k[ChildOutcome(key, inner.value, w.env)], c, n + 1, live, r.live, w.env);
      }
    }
  }

  lemma {:induction false} ChildGrows(body: Prog, c: Path, n: nat, e: Entry, w: World, live: Store, fuel: nat)
    requires Total(body) && KeepsLimits(body) && e.counter == n
    requires CodecRoundTrips(w.env) && AgreeOn(c, n, w.snap, live)
    requires ChildCoherent(body, c, n, c + [e], live, w.env)
    requires !ParentFinished(c, live) || IsFinal(Get(live, c + [e]))
    ensures Grows(body, c + [e], 0, live, ExecChild(body, c, c + [e], w, live, fuel).live, w.env)
    decreases body, 2
  {
    var key := c + [e];
    assert InRegion(c, n, key) && Get(w.snap, key) == Get(live, key);
    if IsFinal(Get(live, key)) {
      RegionsNest(c, n, e);
      SettledIsCoherent(body, key, 0, live, w.env);
      GrowsItself(body, key, 0, live, w.env);
      ExecGrows(body, key, 0, w, live, fuel);
    } else {
      OpenChildGrows(body, c, n, e, w, live, fuel);
    }
  }

  lemma {:induction false} OpenChildGrows(body: Prog, c: Path, n: nat, e: Entry, w: World, live: Store, fuel: nat)
    requires Total(body) && KeepsLimits(body) && e.counter == n
    requires CodecRoundTrips(w.env) && AgreeOn(c, n, w.snap, live)
    requires ChildCoherent(body, c, n, c + [e], live, w.env)
    requires !ParentFinished(c, live) && !IsFinal(Get(live, c + [e])) && Get(w.snap, c + [e]) == Get(live, c + [e])
    ensures Grows(body, c + [e], 0, live, ExecChild(body, c, c + [e], w, live, fuel).live, w.env)
    decreases body, 1
  {
    var key := c + [e];
    ChildStarts(body, c, n, e, w, live, fuel);
    var r0 := Perform(c, key, if key in w.snap then [] else ChildStart(), live, fuel);
    if r0.ended.Done? {
      ExecGrows(body, key, 0, w, r0.live, r0.fuel);
      var r1 := Exec(body, key, 0, w, r0.live, r0.fuel);
      FinishWritesOnly(r1, c, key, w.env);
      GrowsFrame(body, key, 0, r0.live, r1.live, live, FinishChild(r1, c, key, w.env).live, w.env);
    } else {
      GrowsItself(body, key, 0, live, w.env);
    }
  }
}
