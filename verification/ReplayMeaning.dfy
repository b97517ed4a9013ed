/**
 What the outcomes of a handler's operations stand for.  In every history, an outcome handed to
 handler code is one that a body gave and the strategy let stand, that the service ended a wait
 with, that the check and the strategy of a poll determine, or that a child's code came to.
 */
module ReplayMeaning {
  import opened Wrappers
  import opened Operations
  import opened ReplayEngine
  import opened ReplayCorrectness
  import opened ReplayRuns
  import PollRuns

  // ----- What happens in a history -----

  /** The results that step bodies can have given, and the waits that the service ended. */
  datatype Facts = Facts(given: iset<BodyResult>, ended: iset<(Path, bool)>)

  ghost function Bodies(fuel: nat, body: nat -> BodyResult): iset<BodyResult> {
    iset f: nat | f <= fuel :: body(f)
  }

  /** A service move that ends a wait. */
  predicate EndsWait(s: Store, e: Event) {
    e.Service? && e.key in s && ServiceMove(s[e.key], e.after) && Final(e.after)
  }

  ghost function FactsOf(p: Prog, h: seq<Event>, env: Env): Facts
    requires Total(p)
  {
    if h == [] then Facts(iset{}, iset{})
    else
      var front, e := h[..|h| - 1], h[|h| - 1];
      var facts := FactsOf(p, front, env);
      if e.Invoke? then facts.(given := facts.given + Bodies(e.fuel, e.body))
      else if EndsWait(StoreAfter(p, front, env), e) then
        facts.(ended := facts.ended + iset{(e.key, e.after.status == Succeeded)})
      else facts
  }

  ghost predicate Within(a: Facts, b: Facts) {
    a.given <= b.given && a.ended <= b.ended
  }

  // ----- What explains an outcome -----

  ghost predicate GaveValue(facts: Facts, v: Value) {
    exists stored: bool :: BodyOk(v, stored) in facts.given
  }

  ghost predicate GaveError(facts: Facts, m: string) {
    exists stored: bool :: BodyErr(m, stored) in facts.given
  }

  /** A body gave the value; or it failed, or an at-most-once attempt was interrupted, and the strategy gave up. */
  ghost predicate ExplainsStep(cfg: StepConfig, key: Path, o: Outcome, env: Env, facts: Facts) {
    match o
    case Ok(v) => GaveValue(facts, v)
    case Err(e) =>
      && e.StepFailed? && e.step == key && !cfg.retry(e.message, e.attempts)
      && (GaveError(facts, e.message) || (cfg.semantics == AtMostOncePerRetry && e.message == env.interrupted(key)))
  }

  /** The service ended the wait so; a wait of zero needs nothing. */
  ghost predicate ExplainsWait(zero: bool, key: Path, o: Outcome, facts: Facts) {
    if zero then o == Ok(UNIT)
    else
      || (o == Ok(UNIT) && (key, true) in facts.ended)
      || (o == Err(Internal("Wait failed in replay")) && (key, false) in facts.ended)
  }

  ghost predicate ExplainsLeaf(leaf: Leaf, key: Path, o: Outcome, env: Env, facts: Facts) {
    match leaf
    case StepLeaf(cfg) => ExplainsStep(cfg, key, o, env, facts)
    case WaitLeaf(zero) => ExplainsWait(zero, key, o, facts)
    case PollLeaf(poll) => PollRuns.Answer(poll, o)
  }

  /** The caller of a child context gets its value, or its failure under the child's name. */
  predicate ExplainsChild(key: Path, r: Outcome, o: Outcome, env: Env) {
    match r
    case Ok(v) => o == Ok(v)
    case Err(e) => o == Err(ChildContextFailed(key, env.show(e)))
  }

  /** All outcomes along the uninterrupted run are explained. */
  ghost predicate Explained(p: Prog, c: Path, n: nat, s: Store, env: Env, facts: Facts)
    requires Total(p)
    decreases p
  {
    match p
    case Finish(_) => true
    case Call(name, leaf, k) =>
      var key := c + [Entry(name, n)];
      var o := LeafOutcome(leaf, Get(s, key), key, env);
      o.Some? ==> ExplainsLeaf(leaf, key, o.value, env, facts) && Explained(k[o.value], c, n + 1, s, env, facts)
    case Nested(name, body, k) =>
      var key := c + [Entry(name, n)];
      var r := Uninterrupted(body, key, 0, s, env).result;
      && Explained(body, key, 0, s, env, facts)
      && (r.Some? ==>
            var o := ChildOutcome(key, r.value, env);
            ExplainsChild(key, r.value, o, env) && Explained(k[o], c, n + 1, s, env, facts))
  }

  lemma {:induction false} ExplainedByMore(p: Prog, c: Path, n: nat, s: Store, env: Env, a: Facts, b: Facts)
    requires Total(p) && Within(a, b) && Explained(p, c, n, s, env, a)
    ensures Explained(p, c, n, s, env, b)
    decreases p
  {
    match p
    case Finish(_) =>
    case Call(name, leaf, k) =>
      var key := c + [Entry(name, n)];
      var o := LeafOutcome(leaf, Get(s, key), key, env);
      if o.Some? {
        ExplainedByMore(k[o.value], c, n + 1, s, env, a, b);
      }
    case Nested(name, body, k) =>
      var key := c + [Entry(name, n)];
      ExplainedByMore(body, key, 0, s, env, a, b);
      var r := Uninterrupted(body, key, 0, s, env).result;
      if r.Some? {
        ExplainedByMore(k[ChildOutcome(key, r.value, env)], c, n + 1, s, env, a, b);
      }
  }

  lemma {:induction false} ExplainedFrame(p: Prog, c: Path, n: nat, s: Store, t: Store, env: Env, facts: Facts)
    requires Total(p) && AgreeOn(c, n, s, t) && Explained(p, c, n, s, env, facts)
    ensures Explained(p, c, n, t, env, facts)
    decreases p
  {
    FreshFrame(c, n, s, t);
    match p
    case Finish(_) =>
    case Call(name, leaf, k) =>
      var key := c + [Entry(name, n)];
      assert InRegion(c, n, key);
      var o := LeafOutcome(leaf, Get(s, key), key, env);
      if o.Some? {
        ExplainedFrame(k[o.value], c, n + 1, s, t, env, facts);
      }
    case Nested(name, body, k) =>
      var e := Entry(name, n);
      RegionsNest(c, n, e);
      UninterruptedFrame(body, c + [e], 0, s, t, env);
      ExplainedFrame(body, c + [e], 0, s, t, env, facts);
      var r := Uninterrupted(body, c + [e], 0, s, env).result;
      if r.Some? {
        ExplainedFrame(k[ChildOutcome(c + [e], r.value, env)], c, n + 1, s, t, env, facts);
      }
  }

  /** Without records only waits of zero and what consists of them have outcomes. */
  lemma {:induction false} FreshIsExplained(p: Prog, c: Path, n: nat, s: Store, env: Env, facts: Facts)
    requires Total(p) && Fresh(c, n, s)
    ensures Explained(p, c, n, s, env, facts)
    decreases p
  {
    match p
    case Finish(_) =>
    case Call(name, leaf, k) =>
      var key := c + [Entry(name, n)];
      assert InRegion(c, n, key);
      var o := LeafOutcome(leaf, Get(s, key), key, env);
      FreshLater(c, n, s);
      if o.Some? {
        FreshIsExplained(k[o.value], c, n + 1, s, env, facts);
      }
    case Nested(name, body, k) =>
      var e := Entry(name, n);
      RegionsNest(c, n, e);
      FreshLater(c, n, s);
      FreshIsExplained(body, c + [e], 0, s, env, facts);
      var r := Uninterrupted(body, c + [e], 0, s, env).result;
      if r.Some? {
        FreshIsExplained(k[ChildOutcome(c + [e], r.value, env)], c, n + 1, s, env, facts);
      }
  }

  // ----- One call -----

  /** What a step that has no outcome yet returns. */
  lemma StepIsExplained(cfg: StepConfig, rec: Option<Record>, key: Path, env: Env, body: BodyResult, facts: Facts)
    requires !IsFinal(rec) && body in facts.given
    ensures var plan := StepPlan(rec, cfg, key, env, body);
            plan.ending.Return? ==> ExplainsStep(cfg, key, plan.ending.o, env, facts)
  {
    match body
    case BodyOk(v, stored) => assert body == BodyOk(v, stored);
    case BodyErr(m, stored) => assert body == BodyErr(m, stored);
  }

  lemma PollIsExplained(poll: PollConfig, rec: Option<Record>, key: Path, env: Env)
    requires CodecRoundTrips(env) && !IsFinal(rec) && LeafOk(PollLeaf(poll), rec, key, env)
    ensures var plan := PollPlan(rec, poll, key, env);
            plan.ending.Return? ==> PollRuns.Answer(poll, plan.ending.o)
  {
    var z := PollRuns.PollSetting(poll, key, env);
    PollRuns.PlansAreShort(rec, z);
    PollRuns.OneInvocation(rec, z, 3);
  }

  /** What a call that has no outcome yet returns. */
  lemma CallIsExplained(leaf: Leaf, rec: Option<Record>, key: Path, env: Env, body: BodyResult, facts: Facts)
    requires CodecRoundTrips(env) && LeafOutcome(leaf, rec, key, env).None?
    requires !IsFinal(rec) && LeafOk(leaf, rec, key, env) && body in facts.given
    ensures var plan := LeafPlan(leaf, rec, key, env, body);
            plan.ending.Return? ==> ExplainsLeaf(leaf, key, plan.ending.o, env, facts)
  {
    match leaf
    case StepLeaf(cfg) => StepIsExplained(cfg, rec, key, env, body, facts);
    case PollLeaf(poll) => PollIsExplained(poll, rec, key, env);
    case WaitLeaf(_) =>
  }

  /** The outcome of a check that fails again. */
  lemma FailedCheckIsExplained(leaf: Leaf, rec: Option<Record>, key: Path, env: Env, facts: Facts)
    requires CodecRoundTrips(env) && !IsFinal(rec) && LeafOk(leaf, rec, key, env)
    ensures var o := LeafOutcome(leaf, rec, key, env);
            o.Some? ==> ExplainsLeaf(leaf, key, o.value, env, facts)
  {
    if leaf.PollLeaf? {
      PollIsExplained(leaf.poll, rec, key, env);
    }
  }

  /** All results the bodies of this invocation can give are among the facts. */
  ghost predicate Knows(facts: Facts, w: World, fuel: nat) {
    forall f: nat :: f <= fuel ==> w.body(f) in facts.given
  }

  /** What a leaf operation leaves explained. */
  lemma LeafIsExplained(p: Prog, c: Path, n: nat, w: World, live: Store, fuel: nat, facts: Facts)
    requires Total(p) && p.Call? && ResumableFrom(p, c, n, w, live) && w.body(fuel) in facts.given
    requires LeafOutcome(p.leaf, Get(live, c + [Entry(p.name, n)]), c + [Entry(p.name, n)], w.env).None?
    ensures var key := c + [Entry(p.name, n)];
            var r := LeafRun(p.leaf, c, key, w, live, fuel);
            var o := LeafOutcome(p.leaf, Get(r.live, key), key, w.env);
            && Fresh(c, n + 1, r.live)
            && (o.Some? ==> ExplainsLeaf(p.leaf, key, o.value, w.env, facts))
  {
    var e := Entry(p.name, n);
    var key := c + [e];
    assert InRegion(c, n, key);
    LeafStep(p.name, p.leaf, c, n, w, live, fuel);
    var r := LeafRun(p.leaf, c, key, w, live, fuel);
    FreshAfterChild(c, n, e, live, r.live);
    if r.ended.Done? {
      CallIsExplained(p.leaf, Get(live, key), key, w.env, w.body(fuel), facts);
    } else {
      FailedCheckIsExplained(p.leaf, Get(r.live, key), key, w.env, facts);
    }
  }

  // ----- One invocation -----

  lemma {:induction false} PerformFuelFalls(c: Path, key: Path, es: seq<Effect>, live: Store, fuel: nat)
    ensures Perform(c, key, es, live, fuel).fuel <= fuel
    decreases |es|
  {
    if es != [] && fuel > 0 && !(es[0].Persist? && ParentFinished(c, live)) {
      PerformFuelFalls(c, key, es[1..], Put(live, key, ApplyEffect(Get(live, key), es[0])), fuel - 1);
    }
  }

  lemma {:induction false} ExecFuelFalls(p: Prog, c: Path, n: nat, w: World, live: Store, fuel: nat)
    requires Total(p)
    ensures Exec(p, c, n, w, live, fuel).fuel <= fuel
    decreases p, 0
  {
    match p
    case Finish(_) =>
    case Call(name, leaf, k) =>
      var key := c + [Entry(name, n)];
      var r := LeafRun(leaf, c, key, w, live, fuel);
      PerformFuelFalls(c, key, LeafPlan(leaf, Get(w.snap, key), key, w.env, w.body(fuel)).effects, live, fuel);
      if r.ended.Done? {
        ExecFuelFalls(k[r.ended.o], c, n + 1, w, r.live, r.fuel);
      }
    case Nested(name, body, k) =>
      var key := c + [Entry(name, n)];
      var r := ExecChild(body, c, key, w, live, fuel);
      ChildFuelFalls(body, c, key, w, live, fuel);
      if r.ended.Done? {
        ExecFuelFalls(k[r.ended.o], c, n + 1, w, r.live, r.fuel);
      }
  }

  lemma {:induction false} ChildFuelFalls(body: Prog, c: Path, key: Path, w: World, live: Store, fuel: nat)
    requires Total(body)
    ensures ExecChild(body, c, key, w, live, fuel).fuel <= fuel
    decreases body, 1
  {
    match EvaluateReplay(Get(w.snap, key), key, w.env)
    case ReturnRecorded(_) =>
    case ReplayChildren => ExecFuelFalls(body, key, 0, w, live, fuel);
    case Continue =>
      var start := if key in w.snap then [] else ChildStart();
      var r0 := Perform(c, key, start, live, fuel);
      PerformFuelFalls(c, key, start, live, fuel);
      if r0.ended.Done? {
        ExecFuelFalls(body, key, 0, w, r0.live, r0.fuel);
        var r1 := Exec(body, key, 0, w, r0.live, r0.fuel);
        if r1.ended.Done? {
          PerformFuelFalls(c, key, [Persist(ChildEnd(r1.ended.o, w.env))], r1.live, r1.fuel);
        }
      }
  }

  /** One invocation leaves every outcome explained by what was known and what its bodies gave. */
  lemma {:induction false} ExecExplains(p: Prog, c: Path, n: nat, w: World, live: Store, fuel: nat, facts: Facts)
    requires Total(p) && ResumableFrom(p, c, n, w, live)
    requires Knows(facts, w, fuel) && Explained(p, c, n, live, w.env, facts)
    ensures Explained(p, c, n, Exec(p, c, n, w, live, fuel).live, w.env, facts)
    decreases p, 0
  {
    match p
    case Finish(_) =>
    case Call(name, leaf, k) => CallExplains(p, c, n, w, live, fuel, facts);
    case Nested(name, body, k) => NestedExplains(p, c, n, w, live, fuel, facts);
  }

  lemma {:induction false} CallExplains(p: Prog, c: Path, n: nat, w: World, live: Store, fuel: nat, facts: Facts)
    requires Total(p) && p.Call? && ResumableFrom(p, c, n, w, live)
    requires Knows(facts, w, fuel) && Explained(p, c, n, live, w.env, facts)
    ensures Explained(p, c, n, Exec(p, c, n, w, live, fuel).live, w.env, facts)
    decreases p, 0, 0
  {
    var key := c + [Entry(p.name, n)];
    assert InRegion(c, n, key) && !InRegion(c, n + 1, key);
    LeafStep(p.name, p.leaf, c, n, w, live, fuel);
    var r := LeafRun(p.leaf, c, key, w, live, fuel);
    var o := LeafOutcome(p.leaf, Get(r.live, key), key, w.env);
    if LeafOutcome(p.leaf, Get(live, key), key, w.env).None? {
      LeafIsExplained(p, c, n, w, live, fuel, facts);
      if o.Some? {
        FreshIsExplained(p.k[o.value], c, n + 1, r.live, w.env, facts);
      }
    }
    if r.ended.Done? {
      CallContinues(p, c, n, w, live, fuel);
      PerformFuelFalls(c, key, LeafPlan(p.leaf, Get(w.snap, key), key, w.env, w.body(fuel)).effects, live, fuel);
      ExecKeepsPromises(p.k[r.ended.o], c, n + 1, w, r.live, r.fuel);
      ExecExplains(p.k[r.ended.o], c, n + 1, w, r.live, r.fuel, facts);
    }
  }

  /** After a child context, the rest is explained: it was before, or nothing of it has begun. */
  lemma RestIsExplained(
      p: Prog, c: Path, n: nat, w: World, live: Store, fuel: nat, r: Run, o: Outcome, facts: Facts)
    requires Total(p) && p.Nested? && ResumableFrom(p, c, n, w, live) && Explained(p, c, n, live, w.env, facts)
    requires ChildKeepsPromises(p.body, c, n, c + [Entry(p.name, n)], w, live, fuel, r)
    requires Grows(p.body, c + [Entry(p.name, n)], 0, live, r.live, w.env)
    requires var key := c + [Entry(p.name, n)];
             var inner := Uninterrupted(p.body, key, 0, r.live, w.env).result;
             inner.Some? && o == ChildOutcome(key, inner.value, w.env)
    ensures Explained(p.k[o], c, n + 1, r.live, w.env, facts)
  {
    var e := Entry(p.name, n);
    var key := c + [e];
    var before := Uninterrupted(p.body, key, 0, live, w.env).result;
    if IsFinal(Get(live, key)) {
      SettledIsUninterrupted(p.body, key, 0, live, w.env);
    }
    if before.Some? {
      UninterruptedGrows(p.body, key, 0, live, r.live, w.env);
      OutsideAgrees(c, n, e, live, r.live);
      ExplainedFrame(p.k[o], c, n + 1, live, r.live, w.env, facts);
    } else {
      FreshLater(c, n, live);
      FreshAfterChild(c, n, e, live, r.live);
      FreshIsExplained(p.k[o], c, n + 1, r.live, w.env, facts);
    }
  }

  lemma ChildStaysExplained(body: Prog, c: Path, n: nat, e: Entry, mid: Store, end: Store, env: Env, facts: Facts)
    requires Total(body) && e.counter == n && AgreeOutside(c, n + 1, mid, end)
    requires Explained(body, c + [e], 0, mid, env, facts)
    ensures Explained(body, c + [e], 0, end, env, facts)
    ensures Uninterrupted(body, c + [e], 0, end, env) == Uninterrupted(body, c + [e], 0, mid, env)
  {
    RegionsNest(c, n, e);
    ExplainedFrame(body, c + [e], 0, mid, end, env, facts);
    UninterruptedFrame(body, c + [e], 0, mid, end, env);
  }

  lemma {:induction false} NestedExplains(p: Prog, c: Path, n: nat, w: World, live: Store, fuel: nat, facts: Facts)
    requires Total(p) && p.Nested? && ResumableFrom(p, c, n, w, live)
    requires Knows(facts, w, fuel) && Explained(p, c, n, live, w.env, facts)
    ensures Explained(p, c, n, Exec(p, c, n, w, live, fuel).live, w.env, facts)
    decreases p, 0, 0
  {
    var e := Entry(p.name, n);
    var key := c + [e];
    var r := ExecChild(p.body, c, key, w, live, fuel);
    assert InRegion(c, n, key) && ChildCoherent(p.body, c, n, key, live, w.env);
    ChildRuns(p.body, c, n, e, w, live, fuel);
    ChildGrows(p.body, c, n, e, w, live, fuel);
    ChildExplains(p.body, c, n, e, w, live, fuel, facts);
    var inner := Uninterrupted(p.body, key, 0, r.live, w.env).result;
    if inner.Some? {
      RestIsExplained(p, c, n, w, live, fuel, r, ChildOutcome(key, inner.value, w.env), facts);
    }
    if r.ended.Done? {
      var rest := p.k[r.ended.o];
      SettledIsUninterrupted(p.body, key, 0, r.live, w.env);
      NestedRest(p, c, n, w, live, fuel, r);
      ChildFuelFalls(p.body, c, key, w, live, fuel);
      ExecKeepsPromises(rest, c, n + 1, w, r.live, r.fuel);
      ExecExplains(rest, c, n + 1, w, r.live, r.fuel, facts);
      ChildStaysExplained(p.body, c, n, e, r.live, Exec(rest, c, n + 1, w, r.live, r.fuel).live, w.env, facts);
    }
  }

  lemma {:induction false} ChildExplains(
      body: Prog, c: Path, n: nat, e: Entry, w: World, live: Store, fuel: nat, facts: Facts)
    requires Total(body) && KeepsLimits(body) && e.counter == n
    requires CodecRoundTrips(w.env) && AgreeOn(c, n, w.snap, live)
    requires ChildCoherent(body, c, n, c + [e], live, w.env)
    requires !ParentFinished(c, live) || IsFinal(Get(live, c + [e]))
    requires Knows(facts, w, fuel) && Explained(body, c + [e], 0, live, w.env, facts)
    ensures Explained(body, c + [e], 0, ExecChild(body, c, c + [e], w, live, fuel).live, w.env, facts)
    decreases body, 2
  {
    var key := c + [e];
    assert InRegion(c, n, key) && Get(w.snap, key) == Get(live, key);
    if IsFinal(Get(live, key)) {
      RegionsNest(c, n, e);
      SettledIsCoherent(body, key, 0, live, w.env);
      ExecExplains(body, key, 0, w, live, fuel, facts);
    } else {
      OpenChildExplains(body, c, n, e, w, live, fuel, facts);
    }
  }

  lemma {:induction false} OpenChildExplains(
      body: Prog, c: Path, n: nat, e: Entry, w: World, live: Store, fuel: nat, facts: Facts)
    requires Total(body) && KeepsLimits(body) && e.counter == n
    requires CodecRoundTrips(w.env) && AgreeOn(c, n, w.snap, live)
    requires ChildCoherent(body, c, n, c + [e], live, w.env)
    requires !ParentFinished(c, live) && !IsFinal(Get(live, c + [e])) && Get(w.snap, c + [e]) == Get(live, c + [e])
    requires Knows(facts, w, fuel) && Explained(body, c + [e], 0, live, w.env, facts)
    ensures Explained(body, c + [e], 0, ExecChild(body, c, c + [e], w, live, fuel).live, w.env, facts)
    decreases body, 1
  {
    var key := c + [e];
    ChildStarts(body, c, n, e, w, live, fuel);
    var start := if key in w.snap then [] else ChildStart();
    var r0 := Perform(c, key, start, live, fuel);
    if r0.ended.Done? {
      PerformFuelFalls(c, key, start, live, fuel);
      ExplainedFrame(body, key, 0, live, r0.live, w.env, facts);
      ExecExplains(body, key, 0, w, r0.live, r0.fuel, facts);
      var r1 := Exec(body, key, 0, w, r0.live, r0.fuel);
      FinishWritesOnly(r1, c, key, w.env);
      ExplainedFrame(body, key, 0, r1.live, FinishChild(r1, c, key, w.env).live, w.env, facts);
    }
  }

  // ----- The service -----

  /** What a service move makes of a leaf operation without an outcome. */
  lemma MoveIsExplained(leaf: Leaf, before: Record, after: Record, key: Path, env: Env, facts: Facts)
    requires ServiceMove(before, after) && LeafOk(leaf, Some(before), key, env)
    requires LeafOutcome(leaf, Some(before), key, env).None?
    requires Final(after) ==> (key, after.status == Succeeded) in facts.ended
    ensures var o := LeafOutcome(leaf, Some(after), key, env);
            o.Some? ==> ExplainsLeaf(leaf, key, o.value, env, facts)
  {
  }

  lemma {:induction false} ServiceExplains(
      p: Prog, c: Path, n: nat, s: Store, key: Path, after: Record, env: Env, facts: Facts)
    requires Total(p) && Coherent(p, c, n, s, env) && Explained(p, c, n, s, env, facts)
    requires key in s && ServiceMove(s[key], after)
    requires Final(after) ==> (key, after.status == Succeeded) in facts.ended
    ensures Explained(p, c, n, s[key := after], env, facts)
    decreases p
  {
    var t := s[key := after];
    match p
    case Finish(_) =>
    case Call(name, leaf, k) =>
      var here := c + [Entry(name, n)];
      var o := LeafOutcome(leaf, Get(s, here), here, env);
      if o.Some? {
        if here == key {
          ServiceKeepsOutcome(leaf, s[key], after, here, env);
        }
        ServiceExplains(k[o.value], c, n + 1, s, key, after, env, facts);
      } else if here == key {
        MoveIsExplained(leaf, s[key], after, here, env, facts);
        var now := LeafOutcome(leaf, Some(after), here, env);
        if now.Some? {
          assert !InRegion(c, n + 1, here);
          FreshIsExplained(k[now.value], c, n + 1, t, env, facts);
        }
      }
    case Nested(name, body, k) => ServiceExplainsNested(p, c, n, s, key, after, env, facts);
  }

  lemma {:induction false} ServiceExplainsNested(
      p: Prog, c: Path, n: nat, s: Store, key: Path, after: Record, env: Env, facts: Facts)
    requires Total(p) && p.Nested? && Coherent(p, c, n, s, env) && Explained(p, c, n, s, env, facts)
    requires key in s && ServiceMove(s[key], after)
    requires Final(after) ==> (key, after.status == Succeeded) in facts.ended
    ensures Explained(p, c, n, s[key := after], env, facts)
    decreases p, 0
  {
    var t := s[key := after];
    var e := Entry(p.name, n);
    var here := c + [e];
    if here in s && Final(s[here]) {
      SettledIsCoherent(p.body, here, 0, s, env);
      SettledIsUninterrupted(p.body, here, 0, s, env);
    } else if here !in s {
      RegionsNest(c, n, e);
      FreshIsCoherent(p.body, here, 0, s, env);
    }
    ServiceExplains(p.body, here, 0, s, key, after, env, facts);
    ServiceGrows(p.body, here, 0, s, key, after, env);
    UninterruptedGrows(p.body, here, 0, s, t, env);
    var r := Uninterrupted(p.body, here, 0, t, env).result;
    if r.Some? {
      var rest := p.k[ChildOutcome(here, r.value, env)];
      if here in s && Final(s[here]) {
        ServiceExplains(rest, c, n + 1, s, key, after, env, facts);
      } else {
        FreshLater(c, n, s);
        FreshIsExplained(rest, c, n + 1, t, env, facts);
      }
    }
  }

  // ----- Histories -----

  lemma EventIsExplained(p: Prog, s: Store, e: Event, env: Env, facts: Facts)
    requires Total(p) && KeepsLimits(p) && CodecRoundTrips(env) && Coherent(p, [], 0, s, env)
    requires Explained(p, [], 0, s, env, facts)
    requires e.Invoke? ==> Bodies(e.fuel, e.body) <= facts.given
    requires EndsWait(s, e) ==> (e.key, e.after.status == Succeeded) in facts.ended
    ensures Explained(p, [], 0, StoreNext(p, s, e, env), env, facts)
  {
    match e {
      case Invoke(fuel, body) => ExecExplains(p, [], 0, World(s, env, body), s, fuel, facts);
      case Service(key, after) =>
        if key in s && ServiceMove(s[key], after) {
          ServiceExplains(p, [], 0, s, key, after, env, facts);
        }
    }
  }

  /** After every history, all outcomes along the uninterrupted run are explained by what happened in it. */
  lemma {:induction false} HistoryIsExplained(p: Prog, h: seq<Event>, env: Env)
    requires Total(p) && KeepsLimits(p) && CodecRoundTrips(env)
    ensures Explained(p, [], 0, StoreAfter(p, h, env), env, FactsOf(p, h, env))
  {
    var facts := FactsOf(p, h, env);
    if h == [] {
      FreshIsExplained(p, [], 0, map[], env, facts);
    } else {
      var front := h[..|h| - 1];
      HistoryIsExplained(p, front, env);
      HistoryIsCoherent(p, front, 0, env);
      ExplainedByMore(p, [], 0, StoreAfter(p, front, env), env, FactsOf(p, front, env), facts);
      EventIsExplained(p, StoreAfter(p, front, env), h[|h| - 1], env, facts);
    }
  }

  // ----- What handler code is given -----

  /** An operation that has an outcome; of a child context, what its code came to. */
  datatype Operation = LeafOp(leaf: Leaf) | ChildOp(r: Outcome)

  /** The uninterrupted run performs this operation at `key`. */
  ghost predicate Performs(p: Prog, c: Path, n: nat, s: Store, env: Env, key: Path, op: Operation)
    requires Total(p)
    decreases p
  {
    match p
    case Finish(_) => false
    case Call(name, leaf, k) =>
      var here := c + [Entry(name, n)];
      var o := LeafOutcome(leaf, Get(s, here), here, env);
      o.Some? && ((here == key && op == LeafOp(leaf)) || Performs(k[o.value], c, n + 1, s, env, key, op))
    case Nested(name, body, k) =>
      var here := c + [Entry(name, n)];
      var r := Uninterrupted(body, here, 0, s, env).result;
      || Performs(body, here, 0, s, env, key, op)
      || (r.Some? &&
          ((here == key && op == ChildOp(r.value))
           || Performs(k[ChildOutcome(here, r.value, env)], c, n + 1, s, env, key, op)))
  }

  ghost predicate ExplainsOperation(op: Operation, key: Path, o: Outcome, env: Env, facts: Facts) {
    match op
    case LeafOp(leaf) => ExplainsLeaf(leaf, key, o, env, facts)
    case ChildOp(r) => ExplainsChild(key, r, o, env)
  }

  lemma {:induction false} EntryIsExplained(
      p: Prog, c: Path, n: nat, s: Store, env: Env, facts: Facts, e: (Path, Outcome)) returns (op: Operation)
    requires Total(p) && Explained(p, c, n, s, env, facts) && e in Uninterrupted(p, c, n, s, env).trace
    ensures Performs(p, c, n, s, env, e.0, op) && ExplainsOperation(op, e.0, e.1, env, facts)
    decreases p
  {
    match p
    case Call(name, leaf, k) =>
      var here := c + [Entry(name, n)];
      var o := LeafOutcome(leaf, Get(s, here), here, env);
      if e == (here, o.value) {
        op := LeafOp(leaf);
      } else {
        op := EntryIsExplained(k[o.value], c, n + 1, s, env, facts, e);
      }
    case Nested(name, body, k) =>
      var here := c + [Entry(name, n)];
      var inner := Uninterrupted(body, here, 0, s, env);
      if e in inner.trace {
        op := EntryIsExplained(body, here, 0, s, env, facts, e);
      } else {
        var o := ChildOutcome(here, inner.result.value, env);
        if e == (here, o) {
          op := ChildOp(inner.result.value);
        } else {
          op := EntryIsExplained(k[o], c, n + 1, s, env, facts, e);
        }
      }
  }

  /**
   No outcome is invented.  Whatever any invocation of any history hands to handler code is the
   outcome of an operation of the uninterrupted run, and explained by what happened in the
   history: of a step, a value that one of its invocations' bodies gave.
   */
  lemma SeenIsExplained(p: Prog, h: seq<Event>, i: nat, env: Env, e: (Path, Outcome)) returns (op: Operation)
    requires Total(p) && KeepsLimits(p) && CodecRoundTrips(env) && i < |h| && h[i].Invoke?
    requires e in RunOf(p, h, i, env).seen
    ensures Performs(p, [], 0, StoreAfter(p, h, env), env, e.0, op)
    ensures ExplainsOperation(op, e.0, e.1, env, FactsOf(p, h, env))
  {
    HistoryIsExplained(p, h, env);
    SameOperationSameOutcome(p, h, i, i, e, e, env);
    op := EntryIsExplained(p, [], 0, StoreAfter(p, h, env), env, FactsOf(p, h, env), e);
  }

  lemma {:induction false} GivenInHistory(p: Prog, h: seq<Event>, env: Env, b: BodyResult) returns (i: nat, f: nat)
    requires Total(p) && b in FactsOf(p, h, env).given
    ensures i < |h| && h[i].Invoke? && f <= h[i].fuel && h[i].body(f) == b
  {
    var front, e := h[..|h| - 1], h[|h| - 1];
    if b in FactsOf(p, front, env).given {
      i, f := GivenInHistory(p, front, env, b);
    } else {
      i := |h| - 1;
      f :| f <= e.fuel && e.body(f) == b;
    }
  }

  lemma {:induction false} EndedInHistory(p: Prog, h: seq<Event>, env: Env, key: Path, ok: bool) returns (i: nat)
    requires Total(p) && (key, ok) in FactsOf(p, h, env).ended
    ensures i < |h| && EndsWait(StoreAfter(p, h[..i], env), h[i]) && h[i].key == key
    ensures h[i].after.status == if ok then Succeeded else Failed
  {
    var front := h[..|h| - 1];
    if (key, ok) in FactsOf(p, front, env).ended {
      i := EndedInHistory(p, front, env, key, ok);
      assert front[..i] == h[..i];
    } else {
      i := |h| - 1;
    }
  }

  /** The value a step hands out was given by the body in one of the invocations. */
  lemma StepValueIsGiven(p: Prog, h: seq<Event>, j: nat, env: Env, e: (Path, Outcome))
    returns (op: Operation, i: nat, f: nat)
    requires Total(p) && KeepsLimits(p) && CodecRoundTrips(env) && j < |h| && h[j].Invoke?
    requires e in RunOf(p, h, j, env).seen
    ensures Performs(p, [], 0, StoreAfter(p, h, env), env, e.0, op)
    ensures op.LeafOp? && op.leaf.StepLeaf? && e.1.Ok? ==>
              && i < |h| && h[i].Invoke? && f <= h[i].fuel
              && h[i].body(f).BodyOk? && h[i].body(f).v == e.1.value
  {
    op := SeenIsExplained(p, h, j, env, e);
    i, f := 0, 0;
    if op.LeafOp? && op.leaf.StepLeaf? && e.1.Ok? {
      var stored: bool :| BodyOk(e.1.value, stored) in FactsOf(p, h, env).given;
      i, f := GivenInHistory(p, h, env, BodyOk(e.1.value, stored));
    }
  }

  /** A wait that is not zero hands out what the service ended it with. */
  lemma WaitOutcomeIsServed(p: Prog, h: seq<Event>, j: nat, env: Env, e: (Path, Outcome))
    returns (op: Operation, i: nat)
    requires Total(p) && KeepsLimits(p) && CodecRoundTrips(env) && j < |h| && h[j].Invoke?
    requires e in RunOf(p, h, j, env).seen
    ensures Performs(p, [], 0, StoreAfter(p, h, env), env, e.0, op)
    ensures op == LeafOp(WaitLeaf(false)) ==>
              && i < |h| && EndsWait(StoreAfter(p, h[..i], env), h[i]) && h[i].key == e.0
              && e.1 == (if h[i].after.status == Succeeded then Ok(UNIT) else Err(Internal("Wait failed in replay")))
  {
    op := SeenIsExplained(p, h, j, env, e);
    i := 0;
    if op == LeafOp(WaitLeaf(false)) {
      i := EndedInHistory(p, h, env, e.0, e.1.Ok?);
    }
  }

  /**
   The record of a completed child context: its value, if that takes at most 256 KB, or nothing
   but the order to run it again; or the text of its failure.
   */
  lemma ChildRecordSays(body: Prog, c: Path, n: nat, key: Path, s: Store, env: Env)
    requires Total(body) && ChildCoherent(body, c, n, key, s, env) && key in s && Final(s[key])
    ensures Settled(body, key, 0, s, env).Some?
    ensures match Settled(body, key, 0, s, env).value
            case Ok(v) =>
              && s[key].status == Succeeded
              && (if |env.encode(v)| <= 262_144 then s[key].result == Some(env.encode(v)) && !s[key].replayChildren
                  else s[key].result == Some("") && s[key].replayChildren)
            case Err(e) => s[key].status == Failed && s[key].error == Some(env.show(e))
  {
  }

  // ----- Records, whoever wrote them -----

  /** What a child context finds in its record: its value, its failure, the order to run again, or nothing to go by. */
  lemma ChildRecordReads(rec: Record, key: Path, env: Env)
    ensures var r := EvaluateReplay(Some(rec), key, env);
            && (forall v :: r == ReturnRecorded(Ok(v))
                  <==> rec.status == Succeeded && !rec.replayChildren
                       && rec.result.Some? && env.decode(rec.result.value) == Some(v))
            && (forall e :: r == ReturnRecorded(Err(e))
                  <==> rec.status == Failed && e == ChildContextFailed(key, rec.error.GetOr("Child context failed")))
            && (r == ReplayChildren <==> rec.status == Succeeded && rec.replayChildren)
  {
  }

  /** Below a finished context no write takes place, and the call does not return. */
  lemma FinishedParentBlocks(c: Path, key: Path, update: Write, live: Store, fuel: nat)
    requires c != [] && IsFinal(Get(live, c)) && fuel > 0
    ensures Perform(c, key, [Persist(update)], live, fuel).ended == Stopped(Blocked)
    ensures Perform(c, key, [Persist(update)], live, fuel).live == live
  {
  }

  lemma OneWrite(c: Path, key: Path, update: Write, live: Store, fuel: nat)
    requires !ParentFinished(c, live) && fuel > 0
    ensures Perform(c, key, [Persist(update)], live, fuel)
         == Run(Done(Ok(UNIT)), live[key := ApplyWrite(Get(live, key), update)], fuel - 1, [])
  {
    assert [Persist(update)][1..] == [];
  }

  /** A child context writes its START only where it has no record, and its end only where that is open. */
  lemma ChildWritesOnce(o: Outcome, c: Path, key: Path, env: Env, body: nat -> BodyResult, live: Store, fuel: nat)
    requires !ParentFinished(c, live) && c != key && fuel >= 2
    ensures var r := ExecChild(Finish(o), c, key, World(live, env, body), live, fuel);
            && (key !in live ==> r.ended.Done? && r.fuel == fuel - 2)
            && (key in live && !Final(live[key]) ==> r.ended.Done? && r.fuel == fuel - 1)
            && (key in live && live[key].status == Failed ==> r.ended.Done? && r.fuel == fuel)
  {
    var start := Write(ContextKind, Start, None, None, false);
    OneWrite(c, key, start, live, fuel);
    OneWrite(c, key, ChildEnd(o, env), live, fuel);
    var started := live[key := ApplyWrite(Get(live, key), start)];
    assert Get(started, c) == Get(live, c);
    OneWrite(c, key, ChildEnd(o, env), started, fuel - 1);
  }
}
