/**
 Whole histories: any number of invocations, each cut anywhere, with the service completing
 waits and making retries ready in between.
 */
module ReplayRuns {
  import opened Wrappers
  import opened Operations
  import opened ReplayEngine
  import opened ReplayCorrectness

  // ----- Positions -----

  /** Two addresses are the same position of the same context. */
  predicate SamePosition(a: Path, b: Path) {
    && |a| == |b| > 0
    && a[..|a| - 1] == b[..|b| - 1]
    && a[|a| - 1].counter == b[|b| - 1].counter
  }

  lemma {:induction false} TraceStaysInRegion(p: Prog, c: Path, n: nat, s: Store, env: Env)
    requires Total(p)
    ensures forall e :: e in Uninterrupted(p, c, n, s, env).trace ==> InRegion(c, n, e.0)
    decreases p
  {
    match p
    case Finish(_) =>
    case Call(name, leaf, k) =>
      var key := c + [Entry(name, n)];
      var o := LeafOutcome(leaf, Get(s, key), key, env);
      if o.Some? {
        TraceStaysInRegion(k[o.value], c, n + 1, s, env);
        assert forall key :: InRegion(c, n + 1, key) ==> InRegion(c, n, key);
      }
    case Nested(name, body, k) =>
      var key := c + [Entry(name, n)];
      TraceStaysInRegion(body, key, 0, s, env);
      RegionsNest(c, n, Entry(name, n));
      var inner := Uninterrupted(body, key, 0, s, env);
      if inner.result.Some? {
        TraceStaysInRegion(k[ChildOutcome(key, inner.result.value, env)], c, n + 1, s, env);
        assert forall key :: InRegion(c, n + 1, key) ==> InRegion(c, n, key);
      }
  }

  lemma SamePositionSameRegion(c: Path, n: nat, a: Path, b: Path)
    requires SamePosition(a, b)
    ensures InRegion(c, n, a) == InRegion(c, n, b)
    ensures |a| == |c| + 1 && InRegion(c, n, a) ==> a[|c|].counter == b[|c|].counter
  {
    if |c| < |a| - 1 {
      assert a[|c|] == a[..|a| - 1][|c|] == b[..|b| - 1][|c|] == b[|c|];
      assert a[..|c|] == a[..|a| - 1][..|c|];
      assert b[..|c|] == b[..|b| - 1][..|c|];
    } else if |c| == |a| - 1 {
      assert a[..|c|] == b[..|c|];
    }
  }

  /** At every position of every context the uninterrupted run performs one operation. */
  lemma {:induction false} OnePerPosition(
      p: Prog, c: Path, n: nat, s: Store, env: Env, e: (Path, Outcome), f: (Path, Outcome))
    requires Total(p) && SamePosition(e.0, f.0)
    requires e in Uninterrupted(p, c, n, s, env).trace && f in Uninterrupted(p, c, n, s, env).trace
    ensures e == f
    decreases p
  {
    match p
    case Call(name, leaf, k) =>
      var key := c + [Entry(name, n)];
      var o := LeafOutcome(leaf, Get(s, key), key, env).value;
      TraceStaysInRegion(k[o], c, n + 1, s, env);
      SamePositionSameRegion(c, n + 1, e.0, f.0);
      if InRegion(c, n + 1, e.0) {
        assert e != (key, o) && f != (key, o);
        OnePerPosition(k[o], c, n + 1, s, env, e, f);
      }
    case Nested(name, body, k) =>
      var entry := Entry(name, n);
      var key := c + [entry];
      var inner := Uninterrupted(body, key, 0, s, env);
      TraceStaysInRegion(body, key, 0, s, env);
      RegionsNest(c, n, entry);
      SamePositionSameRegion(c, n + 1, e.0, f.0);
      SamePositionSameRegion(key, 0, e.0, f.0);
      if inner.result.Some? {
        var o := ChildOutcome(key, inner.result.value, env);
        TraceStaysInRegion(k[o], c, n + 1, s, env);
        if InRegion(c, n + 1, e.0) {
          assert e !in inner.trace && f !in inner.trace && e != (key, o) && f != (key, o);
          OnePerPosition(k[o], c, n + 1, s, env, e, f);
        }
      }
      if InRegion(key, 0, e.0) {
        OnePerPosition(body, key, 0, s, env, e, f);
      }
  }

  // ----- Histories -----

  datatype Event =
    | Invoke(fuel: nat, body: nat -> BodyResult)
    | Service(key: Path, after: Record)

  /** The store after one more event. */
  ghost function StoreNext(p: Prog, s: Store, e: Event, env: Env): Store
    requires Total(p)
  {
    match e
    case Invoke(fuel, body) => Exec(p, [], 0, World(s, env, body), s, fuel).live
    case Service(key, after) => if key in s && ServiceMove(s[key], after) then s[key := after] else s
  }

  ghost function StoreAfter(p: Prog, h: seq<Event>, env: Env): Store
    requires Total(p)
  {
    if h == [] then map[]
    else StoreNext(p, StoreAfter(p, h[..|h| - 1], env), h[|h| - 1], env)
  }

  /** The run of invocation `i` of a history. */
  ghost function RunOf(p: Prog, h: seq<Event>, i: nat, env: Env): Run
    requires Total(p) && i < |h| && h[i].Invoke?
  {
    var s := StoreAfter(p, h[..i], env);
    Exec(p, [], 0, World(s, env, h[i].body), s, h[i].fuel)
  }

  lemma {:induction false} SettledSurvives(p: Prog, c: Path, n: nat, s: Store, t: Store, env: Env)
    requires Total(p) && Extends(s, t) && Grows(p, c, n, s, t, env) && Settled(p, c, n, s, env).Some?
    ensures Settled(p, c, n, t, env) == Settled(p, c, n, s, env)
    decreases p
  {
    match p
    case Finish(_) =>
    case Call(name, leaf, k) =>
      var key := c + [Entry(name, n)];
      SettledSurvives(k[LeafOutcome(leaf, Get(s, key), key, env).value], c, n + 1, s, t, env);
    case Nested(name, body, k) =>
      var key := c + [Entry(name, n)];
      SettledIsUninterrupted(body, key, 0, s, env);
      SettledSurvives(body, key, 0, s, t, env);
      SettledSurvives(k[ChildOutcome(key, Settled(body, key, 0, s, env).value, env)], c, n + 1, s, t, env);
  }

  lemma OpenLeafHasNoOutcome(leaf: Leaf, rec: Option<Record>, path: Path, env: Env)
    ensures LeafOutcome(leaf, rec, path, env).None? ==> !IsFinal(rec)
  {
    if IsFinal(rec) {
      SettledLeafHasNoEffects(leaf, rec, path, env, BodyErr("", true));
    }
  }

  /** A service move changes no outcome that the record already determines. */
  lemma ServiceKeepsOutcome(leaf: Leaf, before: Record, after: Record, path: Path, env: Env)
    requires ServiceMove(before, after) && LeafOutcome(leaf, Some(before), path, env).Some?
    ensures LeafOutcome(leaf, Some(after), path, env) == LeafOutcome(leaf, Some(before), path, env)
  {
  }

  lemma {:induction false} ServiceGrows(p: Prog, c: Path, n: nat, s: Store, key: Path, after: Record, env: Env)
    requires Total(p) && key in s && ServiceMove(s[key], after)
    ensures Grows(p, c, n, s, s[key := after], env)
    decreases p
  {
    var t := s[key := after];
    match p
    case Finish(_) =>
    case Call(name, leaf, k) =>
      var here := c + [Entry(name, n)];
      var o := LeafOutcome(leaf, Get(s, here), here, env);
      if o.Some? {
        if here == key {
          ServiceKeepsOutcome(leaf, s[key], after, here, env);
        }
        ServiceGrows(k[o.value], c, n + 1, s, key, after, env);
      }
    case Nested(name, body, k) =>
      var here := c + [Entry(name, n)];
      ServiceGrows(body, here, 0, s, key, after, env);
      var r := Uninterrupted(body, here, 0, s, env).result;
      if r.Some? {
        ServiceGrows(k[ChildOutcome(here, r.value, env)], c, n + 1, s, key, after, env);
      }
  }

  /** The service may act on any open step or wait between invocations. */
  lemma {:induction false} ServiceKeepsCoherence(
      p: Prog, c: Path, n: nat, s: Store, key: Path, after: Record, env: Env)
    requires Total(p) && Coherent(p, c, n, s, env)
    requires key in s && ServiceMove(s[key], after)
    ensures Coherent(p, c, n, s[key := after], env)
    decreases p
  {
    var t := s[key := after];
    assert Extends(s, t);
    match p
    case Finish(_) =>
    case Call(name, leaf, k) =>
      var here := c + [Entry(name, n)];
      var o := LeafOutcome(leaf, Get(s, here), here, env);
      var now := LeafOutcome(leaf, Get(t, here), here, env);
      if o.Some? {
        if here == key {
          ServiceKeepsOutcome(leaf, s[key], after, here, env);
        }
        ServiceKeepsCoherence(k[o.value], c, n + 1, s, key, after, env);
      } else if now.Some? {
        FreshIsCoherent(k[now.value], c, n + 1, t, env);
      } else {
        OpenLeafHasNoOutcome(leaf, Get(t, here), here, env);
      }
    case Nested(name, body, k) =>
      var here := c + [Entry(name, n)];
      if here !in s {
      } else if !Final(s[here]) {
        ServiceKeepsCoherence(body, here, 0, s, key, after, env);
      } else {
        var r := Settled(body, here, 0, s, env);
        ServiceGrows(body, here, 0, s, key, after, env);
        SettledSurvives(body, here, 0, s, t, env);
        ServiceKeepsCoherence(k[ChildOutcome(here, r.value, env)], c, n + 1, s, key, after, env);
      }
  }

  lemma EventKeepsCoherence(p: Prog, s: Store, e: Event, env: Env)
    requires Total(p) && KeepsLimits(p) && CodecRoundTrips(env) && Coherent(p, [], 0, s, env)
    ensures var t := StoreNext(p, s, e, env);
            Coherent(p, [], 0, t, env) && Extends(s, t) && Grows(p, [], 0, s, t, env)
  {
    match e {
      case Invoke(fuel, body) =>
        ExecKeepsPromises(p, [], 0, World(s, env, body), s, fuel);
        ExecGrows(p, [], 0, World(s, env, body), s, fuel);
      case Service(key, after) =>
        if key in s && ServiceMove(s[key], after) {
          ServiceKeepsCoherence(p, [], 0, s, key, after, env);
          ServiceGrows(p, [], 0, s, key, after, env);
        } else {
          GrowsItself(p, [], 0, s, env);
        }
    }
  }

  /** Every history leaves a store from which an invocation can resume, and never undoes a final record. */
  lemma {:induction false} HistoryIsCoherent(p: Prog, h: seq<Event>, i: nat, env: Env)
    requires Total(p) && KeepsLimits(p) && CodecRoundTrips(env) && i <= |h|
    ensures Coherent(p, [], 0, StoreAfter(p, h, env), env)
    ensures Extends(StoreAfter(p, h[..i], env), StoreAfter(p, h, env))
    ensures Grows(p, [], 0, StoreAfter(p, h[..i], env), StoreAfter(p, h, env), env)
  {
    if h == [] {
      FreshIsCoherent(p, [], 0, map[], env);
      GrowsItself(p, [], 0, map[], env);
    } else {
      var before := h[..|h| - 1];
      var s := StoreAfter(p, before, env);
      if i < |h| {
        assert before[..i] == h[..i];
        HistoryIsCoherent(p, before, i, env);
      } else {
        assert h[..i] == h;
        HistoryIsCoherent(p, before, 0, env);
      }
      EventKeepsCoherence(p, s, h[|h| - 1], env);
      if i < |h| {
        GrowsTransitive(p, [], 0, StoreAfter(p, h[..i], env), s, StoreAfter(p, h, env), env);
      } else {
        GrowsItself(p, [], 0, StoreAfter(p, h, env), env);
      }
    }
  }

  /** The promises of invocation `i`, seen from the end of the history. */
  lemma InvocationInHistory(p: Prog, h: seq<Event>, i: nat, env: Env)
    requires Total(p) && KeepsLimits(p) && CodecRoundTrips(env) && i < |h| && h[i].Invoke?
    ensures var s := StoreAfter(p, h[..i], env);
            var r := RunOf(p, h, i, env);
            && KeepsPromises(p, [], 0, World(s, env, h[i].body), s, h[i].fuel, r)
            && Extends(r.live, StoreAfter(p, h, env))
            && Grows(p, [], 0, r.live, StoreAfter(p, h, env), env)
  {
    var s := StoreAfter(p, h[..i], env);
    HistoryIsCoherent(p, h[..i], 0, env);
    ExecKeepsPromises(p, [], 0, World(s, env, h[i].body), s, h[i].fuel);
    assert h[..i + 1][..i] == h[..i];
    assert StoreAfter(p, h[..i + 1], env) == RunOf(p, h, i, env).live;
    HistoryIsCoherent(p, h, i + 1, env);
  }

  /**
   Interruption cannot be observed.  If any invocation of any history returns, its result is
   that of one uninterrupted run with the outcomes recorded by the end of the history; so all
   invocations that return give the same result.
   */
  lemma {:induction false} InterruptionIsUnobservable(p: Prog, h: seq<Event>, i: nat, env: Env)
    requires Total(p) && KeepsLimits(p) && CodecRoundTrips(env) && i < |h| && h[i].Invoke?
    requires RunOf(p, h, i, env).ended.Done?
    ensures Uninterrupted(p, [], 0, StoreAfter(p, h, env), env).result == Some(RunOf(p, h, i, env).ended.o)
  {
    InvocationInHistory(p, h, i, env);
    var r := RunOf(p, h, i, env);
    SettledIsUninterrupted(p, [], 0, r.live, env);
    UninterruptedGrows(p, [], 0, r.live, StoreAfter(p, h, env), env);
  }

  /**
   An operation is the same in every invocation.  If two invocations reach the same position
   of the same context, and hand its outcome to handler code, then it has the same name, hence
   the same id, and the outcome is the same; and it is the one the uninterrupted run has there.
   */
  lemma {:induction false} SameOperationSameOutcome(
      p: Prog, h: seq<Event>, i: nat, j: nat, e: (Path, Outcome), f: (Path, Outcome), env: Env)
    requires Total(p) && KeepsLimits(p) && CodecRoundTrips(env)
    requires i < |h| && h[i].Invoke? && e in RunOf(p, h, i, env).seen
    requires j < |h| && h[j].Invoke? && f in RunOf(p, h, j, env).seen
    ensures e in Uninterrupted(p, [], 0, StoreAfter(p, h, env), env).trace
    ensures SamePosition(e.0, f.0) ==> e == f
  {
    var s := StoreAfter(p, h, env);
    InvocationInHistory(p, h, i, env);
    InvocationInHistory(p, h, j, env);
    UninterruptedGrows(p, [], 0, RunOf(p, h, i, env).live, s, env);
    UninterruptedGrows(p, [], 0, RunOf(p, h, j, env).live, s, env);
    if SamePosition(e.0, f.0) {
      OnePerPosition(p, [], 0, s, env, e, f);
    }
  }

  /**
   Once an invocation has returned, every later one writes nothing and returns the same result.
   It enters no body but those of the checks that failed, each of them once, and cannot be cut
   anywhere else.
   */
  lemma {:induction false} CompletedRunIsPureReplay(p: Prog, h: seq<Event>, i: nat, j: nat, env: Env)
    requires Total(p) && KeepsLimits(p) && CodecRoundTrips(env)
    requires i < j < |h| && h[i].Invoke? && h[j].Invoke?
    requires RunOf(p, h, i, env).ended.Done?
    ensures var s := StoreAfter(p, h[..j], env);
            Replays(RunOf(p, h, j, env), RunOf(p, h, i, env).ended.o, s, h[j].fuel, Cost(p, [], 0, s, env))
  {
    var before := h[..j];
    assert before[..i] == h[..i];
    InvocationInHistory(p, before, i, env);
    InvocationInHistory(p, h, j, env);
    SettledSurvives(p, [], 0, RunOf(p, h, i, env).live, StoreAfter(p, before, env), env);
  }

  /** No poll's check ever fails. */
  ghost predicate ChecksSucceed(p: Prog)
    requires Total(p)
  {
    match p
    case Finish(_) => true
    case Call(_, leaf, k) =>
      && (leaf.PollLeaf? ==> forall v: Value :: leaf.poll.check(v).Ok?)
      && forall o: Outcome :: ChecksSucceed(k[o])
    case Nested(_, body, k) => ChecksSucceed(body) && forall o: Outcome :: ChecksSucceed(k[o])
  }

  lemma {:induction false} NothingFailsAgain(p: Prog, c: Path, n: nat, s: Store, env: Env)
    requires Total(p) && ChecksSucceed(p)
    ensures Cost(p, c, n, s, env) == 0
    decreases p
  {
    match p
    case Finish(_) =>
    case Call(name, leaf, k) =>
      forall o: Outcome {
        NothingFailsAgain(k[o], c, n + 1, s, env);
      }
    case Nested(name, body, k) =>
      NothingFailsAgain(body, c + [Entry(name, n)], 0, s, env);
      forall o: Outcome {
        NothingFailsAgain(k[o], c, n + 1, s, env);
      }
  }

  /** Where no check fails, it enters no body at all, so it cannot even be cut. */
  lemma CompletedRunHasNoEffects(p: Prog, h: seq<Event>, i: nat, j: nat, env: Env)
    requires Total(p) && KeepsLimits(p) && CodecRoundTrips(env) && ChecksSucceed(p)
    requires i < j < |h| && h[i].Invoke? && h[j].Invoke?
    requires RunOf(p, h, i, env).ended.Done?
    ensures var r := RunOf(p, h, j, env);
            r.ended == RunOf(p, h, i, env).ended && r.live == StoreAfter(p, h[..j], env) && r.fuel == h[j].fuel
  {
    CompletedRunIsPureReplay(p, h, i, j, env);
    NothingFailsAgain(p, [], 0, StoreAfter(p, h[..j], env), env);
  }

  /** No write ever reaches a context that has already finished, so no call blocks on one. */
  lemma {:induction false} NeverBlocked(p: Prog, h: seq<Event>, i: nat, env: Env)
    requires Total(p) && KeepsLimits(p) && CodecRoundTrips(env) && i < |h| && h[i].Invoke?
    ensures RunOf(p, h, i, env).ended != Stopped(Blocked)
  {
    InvocationInHistory(p, h, i, env);
  }

  /**
   A child context whose value was too big to store is rebuilt by running its code again: the
   code returns the value it had returned, without writing anything or entering any body but
   those of its checks that failed.
   */
  lemma BigChildIsRebuilt(body: Prog, c: Path, n: nat, e: Entry, w: World, live: Store, fuel: nat, v: Value)
    requires Total(body) && KeepsLimits(body) && e.counter == n && CodecRoundTrips(w.env) && AgreeOn(c, n, w.snap, live)
    requires ChildCoherent(body, c, n, c + [e], live, w.env)
    requires Settled(body, c + [e], 0, live, w.env) == Some(Ok(v))
    requires |w.env.encode(v)| > CHECKPOINT_SIZE_LIMIT_BYTES
    requires IsFinal(Get(live, c + [e]))
    ensures live[c + [e]].result == Some("") && live[c + [e]].replayChildren
    ensures var r := ExecChild(body, c, c + [e], w, live, fuel);
            Replays(r, Ok(v), live, fuel, Cost(body, c + [e], 0, live, w.env))
  {
    ChildRuns(body, c, n, e, w, live, fuel);
  }
}
