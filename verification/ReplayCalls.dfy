/**
 The operations that invocations call, whether they return, suspend or are cut: across a
 history they are the operations of one uninterrupted run, the one it stops at included.
 */
module ReplayCalls {
  import opened Wrappers
  import opened Operations
  import opened ReplayEngine
  import opened ReplayCorrectness
  import opened ReplayRuns

  /** The operations that a run of the rest of context `c` calls, in order; `Exec` runs them. */
  ghost function Called(p: Prog, c: Path, n: nat, w: World, live: Store, fuel: nat): seq<Path>
    requires Total(p)
    decreases p, 0
  {
    match p
    case Finish(_) => []
    case Call(name, leaf, k) =>
      var key := c + [Entry(name, n)];
      var r := LeafRun(leaf, c, key, w, live, fuel);
      [key] + if r.ended.Stopped? then [] else Called(k[r.ended.o], c, n + 1, w, r.live, r.fuel)
    case Nested(name, body, k) =>
      var key := c + [Entry(name, n)];
      var r := ExecChild(body, c, key, w, live, fuel);
      [key] + CalledInChild(body, c, key, w, live, fuel)
      + if r.ended.Stopped? then [] else Called(k[r.ended.o], c, n + 1, w, r.live, r.fuel)
  }

  /** The operations called inside child context `key`; `ExecChild` runs them. */
  ghost function CalledInChild(body: Prog, c: Path, key: Path, w: World, live: Store, fuel: nat): seq<Path>
    requires Total(body)
    decreases body, 1
  {
    match EvaluateReplay(Get(w.snap, key), key, w.env)
    case ReturnRecorded(_) => []
    case ReplayChildren => Called(body, key, 0, w, live, fuel)
    case Continue =>
      var r0 := Perform(c, key, if key in w.snap then [] else ChildStart(), live, fuel);
      if r0.ended.Stopped? then [] else Called(body, key, 0, w, r0.live, r0.fuel)
  }

  /** The operations that the uninterrupted run calls, up to and including the one it stops at. */
  ghost function Reached(p: Prog, c: Path, n: nat, s: Store, env: Env): seq<Path>
    requires Total(p)
    decreases p
  {
    match p
    case Finish(_) => []
    case Call(name, leaf, k) =>
      var key := c + [Entry(name, n)];
      var o := LeafOutcome(leaf, Get(s, key), key, env);
      [key] + if o.None? then [] else Reached(k[o.value], c, n + 1, s, env)
    case Nested(name, body, k) =>
      var key := c + [Entry(name, n)];
      var r := Uninterrupted(body, key, 0, s, env).result;
      [key] + Reached(body, key, 0, s, env)
      + if r.None? then [] else Reached(k[ChildOutcome(key, r.value, env)], c, n + 1, s, env)
  }

  // ----- Reached operations -----

  lemma {:induction false} ReachedFrame(p: Prog, c: Path, n: nat, s: Store, t: Store, env: Env)
    requires Total(p) && AgreeOn(c, n, s, t)
    ensures Reached(p, c, n, s, env) == Reached(p, c, n, t, env)
    decreases p
  {
    FreshFrame(c, n, s, t);
    match p
    case Finish(_) =>
    case Call(name, leaf, k) =>
      assert InRegion(c, n, c + [Entry(name, n)]);
      forall o: Outcome {
        ReachedFrame(k[o], c, n + 1, s, t, env);
      }
    case Nested(name, body, k) =>
      var e := Entry(name, n);
      RegionsNest(c, n, e);
      UninterruptedFrame(body, c + [e], 0, s, t, env);
      ReachedFrame(body, c + [e], 0, s, t, env);
      forall o: Outcome {
        ReachedFrame(k[o], c, n + 1, s, t, env);
      }
  }

  /** More records lengthen the uninterrupted run. */
  lemma {:induction false} ReachedGrows(p: Prog, c: Path, n: nat, s: Store, t: Store, env: Env, a: Path)
    requires Total(p) && Grows(p, c, n, s, t, env) && a in Reached(p, c, n, s, env)
    ensures a in Reached(p, c, n, t, env)
    decreases p
  {
    match p
    case Call(name, leaf, k) =>
      var key := c + [Entry(name, n)];
      var o := LeafOutcome(leaf, Get(s, key), key, env);
      if o.Some? {
        assert LeafOutcome(leaf, Get(t, key), key, env) == o;
        if a != key {
          ReachedGrows(k[o.value], c, n + 1, s, t, env, a);
        }
      }
    case Nested(name, body, k) =>
      var key := c + [Entry(name, n)];
      UninterruptedGrows(body, key, 0, s, t, env);
      var r := Uninterrupted(body, key, 0, s, env).result;
      if a in Reached(body, key, 0, s, env) {
        ReachedGrows(body, key, 0, s, t, env, a);
      } else if a != key {
        ReachedGrows(k[ChildOutcome(key, r.value, env)], c, n + 1, s, t, env, a);
      }
  }

  lemma {:induction false} ReachedStaysInRegion(p: Prog, c: Path, n: nat, s: Store, env: Env, a: Path)
    requires Total(p) && a in Reached(p, c, n, s, env)
    ensures InRegion(c, n, a)
    decreases p
  {
    match p
    case Call(name, leaf, k) =>
      var key := c + [Entry(name, n)];
      var o := LeafOutcome(leaf, Get(s, key), key, env);
      if a != key {
        ReachedStaysInRegion(k[o.value], c, n + 1, s, env, a);
      }
    case Nested(name, body, k) =>
      var key := c + [Entry(name, n)];
      var r := Uninterrupted(body, key, 0, s, env).result;
      if a in Reached(body, key, 0, s, env) {
        ReachedStaysInRegion(body, key, 0, s, env, a);
        RegionsNest(c, n, Entry(name, n));
      } else if a != key {
        ReachedStaysInRegion(k[ChildOutcome(key, r.value, env)], c, n + 1, s, env, a);
      }
  }

  /** Where a reached operation of the rest of `c` lies: it is the first one, inside it, or later. */
  lemma ReachedSplits(p: Prog, c: Path, n: nat, s: Store, env: Env, a: Path)
    requires Total(p) && a in Reached(p, c, n, s, env)
    ensures !p.Finish? && InRegion(c, n, a)
    ensures var key := c + [Entry(p.name, n)];
            if InRegion(c, n + 1, a) then
              if p.Call? then
                var o := LeafOutcome(p.leaf, Get(s, key), key, env);
                o.Some? && a in Reached(p.k[o.value], c, n + 1, s, env)
              else
                var r := Uninterrupted(p.body, key, 0, s, env).result;
                r.Some? && a in Reached(p.k[ChildOutcome(key, r.value, env)], c, n + 1, s, env)
            else a == key || (p.Nested? && a in Reached(p.body, key, 0, s, env))
  {
    ReachedStaysInRegion(p, c, n, s, env, a);
    var key := c + [Entry(p.name, n)];
    if p.Call? {
      var o := LeafOutcome(p.leaf, Get(s, key), key, env);
      if a != key {
        ReachedStaysInRegion(p.k[o.value], c, n + 1, s, env, a);
      }
    } else if a in Reached(p.body, key, 0, s, env) {
      ReachedStaysInRegion(p.body, key, 0, s, env, a);
      RegionsNest(c, n, Entry(p.name, n));
    } else if a != key {
      var r := Uninterrupted(p.body, key, 0, s, env).result;
      ReachedStaysInRegion(p.k[ChildOutcome(key, r.value, env)], c, n + 1, s, env, a);
    }
  }

  /** The uninterrupted run calls one operation at each position of each context. */
  lemma {:induction false} OneCallPerPosition(p: Prog, c: Path, n: nat, s: Store, env: Env, a: Path, b: Path)
    requires Total(p) && SamePosition(a, b)
    requires a in Reached(p, c, n, s, env) && b in Reached(p, c, n, s, env)
    ensures a == b
    decreases p
  {
    ReachedSplits(p, c, n, s, env, a);
    ReachedSplits(p, c, n, s, env, b);
    SamePositionSameRegion(c, n + 1, a, b);
    var key := c + [Entry(p.name, n)];
    if InRegion(c, n + 1, a) {
      if p.Call? {
        OneCallPerPosition(p.k[LeafOutcome(p.leaf, Get(s, key), key, env).value], c, n + 1, s, env, a, b);
      } else {
        var r := Uninterrupted(p.body, key, 0, s, env).result;
        OneCallPerPosition(p.k[ChildOutcome(key, r.value, env)], c, n + 1, s, env, a, b);
      }
    } else if a != key || b != key {
      SamePositionSameRegion(key, 0, a, b);
      if a != key {
        ReachedStaysInRegion(p.body, key, 0, s, env, a);
      } else {
        ReachedStaysInRegion(p.body, key, 0, s, env, b);
      }
      OneCallPerPosition(p.body, key, 0, s, env, a, b);
    }
  }

  /** The context an operation is called in was itself called. */
  lemma {:induction false} ContextIsReached(p: Prog, c: Path, n: nat, s: Store, env: Env, a: Path)
    requires Total(p) && a in Reached(p, c, n, s, env)
    ensures a != [] && (a[..|a| - 1] == c || a[..|a| - 1] in Reached(p, c, n, s, env))
    decreases p
  {
    ReachedSplits(p, c, n, s, env, a);
    var key := c + [Entry(p.name, n)];
    if InRegion(c, n + 1, a) {
      if p.Call? {
        ContextIsReached(p.k[LeafOutcome(p.leaf, Get(s, key), key, env).value], c, n + 1, s, env, a);
      } else {
        var r := Uninterrupted(p.body, key, 0, s, env).result;
        ContextIsReached(p.k[ChildOutcome(key, r.value, env)], c, n + 1, s, env, a);
      }
    } else if a == key {
      assert key[..|c|] == c;
    } else {
      ContextIsReached(p.body, key, 0, s, env, a);
    }
  }

  // ----- Called operations are reached -----

  /** Every operation an invocation calls lies on the uninterrupted run with the records it leaves. */
  lemma {:induction false} CalledIsReached(p: Prog, c: Path, n: nat, w: World, live: Store, fuel: nat, a: Path)
    requires Total(p) && ResumableFrom(p, c, n, w, live)
    requires a in Called(p, c, n, w, live, fuel)
    ensures a in Reached(p, c, n, Exec(p, c, n, w, live, fuel).live, w.env)
    decreases p, 0
  {
    var e := Entry(p.name, n);
    var key := c + [e];
    if a == key {
    } else if p.Call? {
      var r := LeafRun(p.leaf, c, key, w, live, fuel);
      var rest := p.k[r.ended.o];
      CallContinues(p, c, n, w, live, fuel);
      CalledIsReached(rest, c, n + 1, w, r.live, r.fuel, a);
      ExecKeepsPromises(rest, c, n + 1, w, r.live, r.fuel);
      assert !InRegion(c, n + 1, key);
    } else {
      NestedCalledIsReached(p, c, n, w, live, fuel, a);
    }
  }

  /** What runs after a child context does not change what was reached in it. */
  lemma ChildStaysReached(body: Prog, c: Path, n: nat, e: Entry, mid: Store, end: Store, env: Env)
    requires Total(body) && e.counter == n && AgreeOutside(c, n + 1, mid, end)
    requires Settled(body, c + [e], 0, mid, env).Some?
    ensures Reached(body, c + [e], 0, end, env) == Reached(body, c + [e], 0, mid, env)
    ensures Uninterrupted(body, c + [e], 0, end, env).result == Settled(body, c + [e], 0, mid, env)
  {
    RegionsNest(c, n, e);
    ReachedFrame(body, c + [e], 0, mid, end, env);
    UninterruptedFrame(body, c + [e], 0, mid, end, env);
    SettledIsUninterrupted(body, c + [e], 0, mid, env);
  }

  lemma {:induction false} NestedCalledIsReached(p: Prog, c: Path, n: nat, w: World, live: Store, fuel: nat, a: Path)
    requires Total(p) && p.Nested? && ResumableFrom(p, c, n, w, live)
    requires a in Called(p, c, n, w, live, fuel) && a != c + [Entry(p.name, n)]
    ensures a in Reached(p, c, n, Exec(p, c, n, w, live, fuel).live, w.env)
    decreases p, 0, 0
  {
    var e := Entry(p.name, n);
    var key := c + [e];
    var r := ExecChild(p.body, c, key, w, live, fuel);
    assert InRegion(c, n, key) && ChildCoherent(p.body, c, n, key, live, w.env);
    ChildRuns(p.body, c, n, e, w, live, fuel);
    if a in CalledInChild(p.body, c, key, w, live, fuel) {
      CalledInChildIsReached(p.body, c, n, e, w, live, fuel, a);
    }
    if r.ended.Done? {
      var rest := p.k[r.ended.o];
      NestedRest(p, c, n, w, live, fuel, r);
      ExecKeepsPromises(rest, c, n + 1, w, r.live, r.fuel);
      if a !in CalledInChild(p.body, c, key, w, live, fuel) {
        CalledIsReached(rest, c, n + 1, w, r.live, r.fuel, a);
      }
      ChildStaysReached(p.body, c, n, e, r.live, Exec(rest, c, n + 1, w, r.live, r.fuel).live, w.env);
    }
  }

  lemma {:induction false} CalledInChildIsReached(
      body: Prog, c: Path, n: nat, e: Entry, w: World, live: Store, fuel: nat, a: Path)
    requires Total(body) && KeepsLimits(body) && e.counter == n
    requires CodecRoundTrips(w.env) && AgreeOn(c, n, w.snap, live)
    requires ChildCoherent(body, c, n, c + [e], live, w.env)
    requires !ParentFinished(c, live) || IsFinal(Get(live, c + [e]))
    requires a in CalledInChild(body, c, c + [e], w, live, fuel)
    ensures a in Reached(body, c + [e], 0, ExecChild(body, c, c + [e], w, live, fuel).live, w.env)
    decreases body, 2
  {
    assert InRegion(c, n, c + [e]) && Get(w.snap, c + [e]) == Get(live, c + [e]);
    if IsFinal(Get(live, c + [e])) {
      RegionsNest(c, n, e);
      SettledIsCoherent(body, c + [e], 0, live, w.env);
      CalledIsReached(body, c + [e], 0, w, live, fuel, a);
    } else {
      CalledInOpenChildIsReached(body, c, n, e, w, live, fuel, a);
    }
  }

  /** The completion of a child context changes its own record only, so nothing reached in it. */
  lemma EndKeepsReached(body: Prog, c: Path, key: Path, r: Run, env: Env)
    requires Total(body)
    ensures Reached(body, key, 0, FinishChild(r, c, key, env).live, env) == Reached(body, key, 0, r.live, env)
  {
    FinishWritesOnly(r, c, key, env);
    ReachedFrame(body, key, 0, r.live, FinishChild(r, c, key, env).live, env);
  }

  lemma {:induction false} CalledInOpenChildIsReached(
      body: Prog, c: Path, n: nat, e: Entry, w: World, live: Store, fuel: nat, a: Path)
    requires Total(body) && KeepsLimits(body) && e.counter == n
    requires CodecRoundTrips(w.env) && AgreeOn(c, n, w.snap, live)
    requires ChildCoherent(body, c, n, c + [e], live, w.env)
    requires !ParentFinished(c, live) && !IsFinal(Get(live, c + [e])) && Get(w.snap, c + [e]) == Get(live, c + [e])
    requires a in CalledInChild(body, c, c + [e], w, live, fuel)
    ensures a in Reached(body, c + [e], 0, ExecChild(body, c, c + [e], w, live, fuel).live, w.env)
    decreases body, 1
  {
    var key := c + [e];
    ChildStarts(body, c, n, e, w, live, fuel);
    var r0 := Perform(c, key, if key in w.snap then [] else ChildStart(), live, fuel);
    assert a in Called(body, key, 0, w, r0.live, r0.fuel);
    CalledIsReached(body, key, 0, w, r0.live, r0.fuel, a);
    EndKeepsReached(body, c, key, Exec(body, key, 0, w, r0.live, r0.fuel), w.env);
  }

  // ----- What a run writes, it has called -----

  lemma {:induction false} WritesOnlyCalled(p: Prog, c: Path, n: nat, w: World, live: Store, fuel: nat, a: Path)
    requires Total(p) && a in Exec(p, c, n, w, live, fuel).live
    ensures a in live || a in Called(p, c, n, w, live, fuel)
    decreases p, 0
  {
    match p
    case Finish(_) =>
    case Call(name, leaf, k) =>
      var key := c + [Entry(name, n)];
      var r := LeafRun(leaf, c, key, w, live, fuel);
      PerformWritesOnly(c, key, LeafPlan(leaf, Get(w.snap, key), key, w.env, w.body(fuel)).effects, live, fuel);
      assert a != key ==> Get(r.live, a) == Get(live, a);
      if r.ended.Done? {
        WritesOnlyCalled(k[r.ended.o], c, n + 1, w, r.live, r.fuel, a);
      }
    case Nested(name, body, k) =>
      var key := c + [Entry(name, n)];
      var r := ExecChild(body, c, key, w, live, fuel);
      if a in r.live {
        ChildWritesOnlyCalled(body, c, key, w, live, fuel, a);
      }
      if r.ended.Done? {
        WritesOnlyCalled(k[r.ended.o], c, n + 1, w, r.live, r.fuel, a);
      }
  }

  lemma {:induction false} ChildWritesOnlyCalled(
      body: Prog, c: Path, key: Path, w: World, live: Store, fuel: nat, a: Path)
    requires Total(body) && a in ExecChild(body, c, key, w, live, fuel).live
    ensures a in live || a == key || a in CalledInChild(body, c, key, w, live, fuel)
    decreases body, 1
  {
    match EvaluateReplay(Get(w.snap, key), key, w.env)
    case ReturnRecorded(_) =>
    case ReplayChildren => WritesOnlyCalled(body, key, 0, w, live, fuel, a);
    case Continue =>
      var start := if key in w.snap then [] else ChildStart();
      var r0 := Perform(c, key, start, live, fuel);
      PerformWritesOnly(c, key, start, live, fuel);
      assert a != key ==> Get(r0.live, a) == Get(live, a);
      if r0.ended.Done? {
        var r1 := Exec(body, key, 0, w, r0.live, r0.fuel);
        FinishWritesOnly(r1, c, key, w.env);
        assert a != key ==> Get(FinishChild(r1, c, key, w.env).live, a) == Get(r1.live, a);
        if a in r1.live {
          WritesOnlyCalled(body, key, 0, w, r0.live, r0.fuel, a);
        }
      }
  }

  // ----- Which called operations give an outcome -----

  /** The operation at which a run of the rest of `c` stops: the one that suspends, or whose effect is cut. */
  ghost function StopsAt(p: Prog, c: Path, n: nat, w: World, live: Store, fuel: nat): Path
    requires Total(p) && Exec(p, c, n, w, live, fuel).ended.Stopped?
    decreases p, 0
  {
    match p
    case Call(name, leaf, k) =>
      var key := c + [Entry(name, n)];
      var r := LeafRun(leaf, c, key, w, live, fuel);
      if r.ended.Stopped? then key else StopsAt(k[r.ended.o], c, n + 1, w, r.live, r.fuel)
    case Nested(name, body, k) =>
      var key := c + [Entry(name, n)];
      var r := ExecChild(body, c, key, w, live, fuel);
      if r.ended.Stopped? then StopsInChild(body, c, key, w, live, fuel)
      else StopsAt(k[r.ended.o], c, n + 1, w, r.live, r.fuel)
  }

  /** The same for child context `key`, which stops itself at its START and at its completion. */
  ghost function StopsInChild(body: Prog, c: Path, key: Path, w: World, live: Store, fuel: nat): Path
    requires Total(body) && ExecChild(body, c, key, w, live, fuel).ended.Stopped?
    decreases body, 1
  {
    match EvaluateReplay(Get(w.snap, key), key, w.env)
    case ReplayChildren => StopsAt(body, key, 0, w, live, fuel)
    case Continue =>
      var r0 := Perform(c, key, if key in w.snap then [] else ChildStart(), live, fuel);
      if r0.ended.Done? && Exec(body, key, 0, w, r0.live, r0.fuel).ended.Stopped? then
        StopsAt(body, key, 0, w, r0.live, r0.fuel)
      else key
  }

  predicate Gave(seen: seq<(Path, Outcome)>, a: Path) {
    exists e :: e in seen && e.0 == a
  }

  lemma GaveAppends(s: seq<(Path, Outcome)>, t: seq<(Path, Outcome)>, a: Path)
    ensures Gave(s + t, a) <==> Gave(s, a) || Gave(t, a)
  {
    if Gave(s, a) {
      var e :| e in s && e.0 == a;
      assert e in s + t;
    }
    if Gave(t, a) {
      var e :| e in t && e.0 == a;
      assert e in s + t;
    }
  }

  lemma {:induction false} CalledStaysInRegion(p: Prog, c: Path, n: nat, w: World, live: Store, fuel: nat, a: Path)
    requires Total(p) && a in Called(p, c, n, w, live, fuel)
    ensures InRegion(c, n, a)
    decreases p, 0
  {
    match p
    case Call(name, leaf, k) =>
      var key := c + [Entry(name, n)];
      var r := LeafRun(leaf, c, key, w, live, fuel);
      if a != key {
        CalledStaysInRegion(k[r.ended.o], c, n + 1, w, r.live, r.fuel, a);
      }
    case Nested(name, body, k) =>
      var key := c + [Entry(name, n)];
      var r := ExecChild(body, c, key, w, live, fuel);
      if a in CalledInChild(body, c, key, w, live, fuel) {
        CalledStaysInChild(body, c, key, w, live, fuel, a);
        RegionsNest(c, n, Entry(name, n));
      } else if a != key {
        CalledStaysInRegion(k[r.ended.o], c, n + 1, w, r.live, r.fuel, a);
      }
  }

  lemma {:induction false} CalledStaysInChild(
      body: Prog, c: Path, key: Path, w: World, live: Store, fuel: nat, a: Path)
    requires Total(body) && a in CalledInChild(body, c, key, w, live, fuel)
    ensures InRegion(key, 0, a)
    decreases body, 1
  {
    match EvaluateReplay(Get(w.snap, key), key, w.env)
    case ReplayChildren => CalledStaysInRegion(body, key, 0, w, live, fuel, a);
    case Continue =>
      var r0 := Perform(c, key, if key in w.snap then [] else ChildStart(), live, fuel);
      CalledStaysInRegion(body, key, 0, w, r0.live, r0.fuel, a);
  }

  /** A run stops at an operation it called. */
  lemma {:induction false} StopIsCalled(p: Prog, c: Path, n: nat, w: World, live: Store, fuel: nat)
    requires Total(p) && Exec(p, c, n, w, live, fuel).ended.Stopped?
    ensures StopsAt(p, c, n, w, live, fuel) in Called(p, c, n, w, live, fuel)
    decreases p, 0
  {
    match p
    case Call(name, leaf, k) =>
      var r := LeafRun(leaf, c, c + [Entry(name, n)], w, live, fuel);
      if r.ended.Done? {
        StopIsCalled(k[r.ended.o], c, n + 1, w, r.live, r.fuel);
      }
    case Nested(name, body, k) =>
      var key := c + [Entry(name, n)];
      var r := ExecChild(body, c, key, w, live, fuel);
      if r.ended.Done? {
        StopIsCalled(k[r.ended.o], c, n + 1, w, r.live, r.fuel);
      } else {
        ChildStopIsCalled(body, c, key, w, live, fuel);
      }
  }

  lemma {:induction false} ChildStopIsCalled(body: Prog, c: Path, key: Path, w: World, live: Store, fuel: nat)
    requires Total(body) && ExecChild(body, c, key, w, live, fuel).ended.Stopped?
    ensures var x := StopsInChild(body, c, key, w, live, fuel);
            x == key || x in CalledInChild(body, c, key, w, live, fuel)
    decreases body, 1
  {
    match EvaluateReplay(Get(w.snap, key), key, w.env)
    case ReplayChildren => StopIsCalled(body, key, 0, w, live, fuel);
    case Continue =>
      var r0 := Perform(c, key, if key in w.snap then [] else ChildStart(), live, fuel);
      if r0.ended.Done? && Exec(body, key, 0, w, r0.live, r0.fuel).ended.Stopped? {
        StopIsCalled(body, key, 0, w, r0.live, r0.fuel);
      }
  }

  /** The operations called that gave no outcome: the one the run stopped at, and the contexts it lies in. */
  ghost predicate Cut(p: Prog, c: Path, n: nat, w: World, live: Store, fuel: nat, a: Path)
    requires Total(p)
  {
    Exec(p, c, n, w, live, fuel).ended.Stopped? && a <= StopsAt(p, c, n, w, live, fuel)
  }

  ghost predicate CutInChild(body: Prog, c: Path, key: Path, w: World, live: Store, fuel: nat, a: Path)
    requires Total(body)
  {
    ExecChild(body, c, key, w, live, fuel).ended.Stopped? && a <= StopsInChild(body, c, key, w, live, fuel)
  }

  lemma EarlierIsOutside(c: Path, n: nat, e: Entry, a: Path, x: Path)
    requires e.counter == n && c + [e] <= a && a <= x
    ensures !InRegion(c, n + 1, x)
  {
    assert x[|c|] == a[|c|] == e;
  }

  /** An operation at an earlier position is not called by the rest. */
  lemma EarlierIsNotCalled(
      rest: Prog, c: Path, n: nat, e: Entry, w: World, live: Store, fuel: nat, a: Path)
    requires Total(rest) && e.counter == n && c + [e] <= a
    ensures a !in Called(rest, c, n + 1, w, live, fuel)
  {
    EarlierIsOutside(c, n, e, a, a);
    if a in Called(rest, c, n + 1, w, live, fuel) {
      CalledStaysInRegion(rest, c, n + 1, w, live, fuel, a);
    }
  }

  /** Nor is it one the rest stops at or in. */
  lemma EarlierIsNotCut(rest: Prog, c: Path, n: nat, e: Entry, w: World, live: Store, fuel: nat, a: Path)
    requires Total(rest) && e.counter == n && c + [e] <= a
    ensures !Cut(rest, c, n + 1, w, live, fuel, a)
  {
    if Exec(rest, c, n + 1, w, live, fuel).ended.Stopped? {
      var x := StopsAt(rest, c, n + 1, w, live, fuel);
      StopIsCalled(rest, c, n + 1, w, live, fuel);
      CalledStaysInRegion(rest, c, n + 1, w, live, fuel, x);
      if a <= x {
        EarlierIsOutside(c, n, e, a, x);
      }
    }
  }

  /** A run hands out the outcomes of exactly the operations it called and was not cut in. */
  lemma {:induction false} GivesUnlessCut(p: Prog, c: Path, n: nat, w: World, live: Store, fuel: nat, a: Path)
    requires Total(p)
    ensures Gave(Exec(p, c, n, w, live, fuel).seen, a)
       <==> a in Called(p, c, n, w, live, fuel) && !Cut(p, c, n, w, live, fuel, a)
    decreases p, 0
  {
    match p
    case Finish(_) =>
    case Call(name, leaf, k) =>
      var key := c + [Entry(name, n)];
      var r := LeafRun(leaf, c, key, w, live, fuel);
      if r.ended.Done? {
        var rest := Exec(k[r.ended.o], c, n + 1, w, r.live, r.fuel);
        GivesUnlessCut(k[r.ended.o], c, n + 1, w, r.live, r.fuel, a);
        GaveAppends([(key, r.ended.o)], rest.seen, a);
        if a == key {
          assert (key, r.ended.o) in [(key, r.ended.o)];
          EarlierIsNotCalled(k[r.ended.o], c, n, Entry(name, n), w, r.live, r.fuel, a);
          EarlierIsNotCut(k[r.ended.o], c, n, Entry(name, n), w, r.live, r.fuel, a);
        }
      }
    case Nested(name, body, k) =>
      NestedGivesUnlessCut(p, c, n, w, live, fuel, a);
  }

  lemma {:induction false} NestedGivesUnlessCut(p: Prog, c: Path, n: nat, w: World, live: Store, fuel: nat, a: Path)
    requires Total(p) && p.Nested?
    ensures Gave(Exec(p, c, n, w, live, fuel).seen, a)
       <==> a in Called(p, c, n, w, live, fuel) && !Cut(p, c, n, w, live, fuel, a)
    decreases p, 0, 0
  {
    var e := Entry(p.name, n);
    var key := c + [e];
    var r := ExecChild(p.body, c, key, w, live, fuel);
    ChildGivesUnlessCut(p.body, c, key, w, live, fuel, a);
    if a in CalledInChild(p.body, c, key, w, live, fuel) {
      CalledStaysInChild(p.body, c, key, w, live, fuel, a);
      assert key <= a;
    }
    if r.ended.Done? {
      var rest := p.k[r.ended.o];
      GivesUnlessCut(rest, c, n + 1, w, r.live, r.fuel, a);
      GaveAppends(r.seen, [(key, r.ended.o)], a);
      GaveAppends(r.seen + [(key, r.ended.o)], Exec(rest, c, n + 1, w, r.live, r.fuel).seen, a);
      if key <= a {
        EarlierIsNotCalled(rest, c, n, e, w, r.live, r.fuel, a);
        EarlierIsNotCut(rest, c, n, e, w, r.live, r.fuel, a);
      }
      if a == key {
        assert (key, r.ended.o) in [(key, r.ended.o)];
      }
    } else {
      ChildStopIsCalled(p.body, c, key, w, live, fuel);
      var x := StopsInChild(p.body, c, key, w, live, fuel);
      if x != key {
        CalledStaysInChild(p.body, c, key, w, live, fuel, x);
      }
    }
  }

  lemma FinishGivesTheSame(r: Run, c: Path, key: Path, env: Env)
    ensures FinishChild(r, c, key, env).seen == r.seen
    ensures r.ended.Stopped? ==> FinishChild(r, c, key, env) == r
  {
  }

  lemma {:induction false} ChildGivesUnlessCut(
      body: Prog, c: Path, key: Path, w: World, live: Store, fuel: nat, a: Path)
    requires Total(body)
    ensures Gave(ExecChild(body, c, key, w, live, fuel).seen, a)
       <==> a in CalledInChild(body, c, key, w, live, fuel) && !CutInChild(body, c, key, w, live, fuel, a)
    decreases body, 1
  {
    match EvaluateReplay(Get(w.snap, key), key, w.env)
    case ReturnRecorded(_) =>
    case ReplayChildren => GivesUnlessCut(body, key, 0, w, live, fuel, a);
    case Continue =>
      var r0 := Perform(c, key, if key in w.snap then [] else ChildStart(), live, fuel);
      if r0.ended.Done? {
        GivesUnlessCut(body, key, 0, w, r0.live, r0.fuel, a);
        var r1 := Exec(body, key, 0, w, r0.live, r0.fuel);
        FinishGivesTheSame(r1, c, key, w.env);
        if a in Called(body, key, 0, w, r0.live, r0.fuel) {
          CalledStaysInRegion(body, key, 0, w, r0.live, r0.fuel, a);
          assert !(a <= key);
        }
      }
  }

  // ----- Histories -----

  /** The operations that invocation `i` of a history calls. */
  ghost function CalledBy(p: Prog, h: seq<Event>, i: nat, env: Env): seq<Path>
    requires Total(p) && i < |h| && h[i].Invoke?
  {
    var s := StoreAfter(p, h[..i], env);
    Called(p, [], 0, World(s, env, h[i].body), s, h[i].fuel)
  }

  /** The operations of the uninterrupted run with the records of the whole history. */
  ghost function ReachedBy(p: Prog, h: seq<Event>, env: Env): seq<Path>
    requires Total(p)
  {
    Reached(p, [], 0, StoreAfter(p, h, env), env)
  }

  /** Every operation that any invocation calls, returned or not, is one of the uninterrupted run. */
  lemma CallsAreReached(p: Prog, h: seq<Event>, i: nat, env: Env, a: Path)
    requires Total(p) && KeepsLimits(p) && CodecRoundTrips(env) && i < |h| && h[i].Invoke?
    requires a in CalledBy(p, h, i, env)
    ensures a in ReachedBy(p, h, env)
  {
    var s := StoreAfter(p, h[..i], env);
    HistoryIsCoherent(p, h[..i], 0, env);
    CalledIsReached(p, [], 0, World(s, env, h[i].body), s, h[i].fuel, a);
    InvocationInHistory(p, h, i, env);
    ReachedGrows(p, [], 0, RunOf(p, h, i, env).live, StoreAfter(p, h, env), env, a);
  }

  /**
   Ids are stable.  Two invocations that call the operation at the same position of the same
   context, whether it then returned, suspended or was cut, call it by the same name.
   */
  lemma SamePositionSameCall(p: Prog, h: seq<Event>, i: nat, j: nat, env: Env, a: Path, b: Path)
    requires Total(p) && KeepsLimits(p) && CodecRoundTrips(env)
    requires i < |h| && h[i].Invoke? && a in CalledBy(p, h, i, env)
    requires j < |h| && h[j].Invoke? && b in CalledBy(p, h, j, env)
    ensures SamePosition(a, b) ==> a == b
  {
    CallsAreReached(p, h, i, env, a);
    CallsAreReached(p, h, j, env, b);
    if SamePosition(a, b) {
      OneCallPerPosition(p, [], 0, StoreAfter(p, h, env), env, a, b);
    }
  }

  /** The operation at which invocation `i` of a history stops. */
  ghost function StopOf(p: Prog, h: seq<Event>, i: nat, env: Env): Path
    requires Total(p) && i < |h| && h[i].Invoke? && RunOf(p, h, i, env).ended.Stopped?
  {
    var s := StoreAfter(p, h[..i], env);
    StopsAt(p, [], 0, World(s, env, h[i].body), s, h[i].fuel)
  }

  /**
   What an invocation hands to handler code: an outcome for each operation it calls, except the
   one it stops at, if it stops, and the contexts that one lies in.
   */
  lemma CallsGiveUnlessCut(p: Prog, h: seq<Event>, i: nat, env: Env, a: Path)
    requires Total(p) && i < |h| && h[i].Invoke?
    ensures var r := RunOf(p, h, i, env);
            Gave(r.seen, a) <==> a in CalledBy(p, h, i, env) && !(r.ended.Stopped? && a <= StopOf(p, h, i, env))
    ensures RunOf(p, h, i, env).ended.Stopped? ==> StopOf(p, h, i, env) in CalledBy(p, h, i, env)
  {
    var s := StoreAfter(p, h[..i], env);
    var w := World(s, env, h[i].body);
    GivesUnlessCut(p, [], 0, w, s, h[i].fuel, a);
    if RunOf(p, h, i, env).ended.Stopped? {
      StopIsCalled(p, [], 0, w, s, h[i].fuel);
    }
  }

  /** Every record in the store belongs to an operation of the uninterrupted run. */
  lemma {:induction false} RecordsAreReached(p: Prog, h: seq<Event>, env: Env, a: Path)
    requires Total(p) && KeepsLimits(p) && CodecRoundTrips(env) && a in StoreAfter(p, h, env)
    ensures a in ReachedBy(p, h, env)
  {
    var n := |h| - 1;
    var s := StoreAfter(p, h[..n], env);
    if h[n].Invoke? && a !in s {
      WritesOnlyCalled(p, [], 0, World(s, env, h[n].body), s, h[n].fuel, a);
      CallsAreReached(p, h, n, env, a);
    } else {
      RecordsAreReached(p, h[..n], env, a);
      HistoryIsCoherent(p, h, n, env);
      ReachedGrows(p, [], 0, s, StoreAfter(p, h, env), env, a);
    }
  }
}
