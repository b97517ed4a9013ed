/**
 Map and parallel operations as the SDK runs them: a loop that keeps at most a given number
 of children in flight, joins them in whatever order they finish, and stops as soon as the
 completion rule allows; and the replay of a finished one.
 */
module BatchScheduler {
  import opened Wrappers
  import opened Operations
  import opened Batches
  import opened BatchSerdes
  import opened BatchReplay
  import opened BatchRuns
  import Decimal
  import Engine = ReplayEngine

  // ----- The lists the loop keeps -----

  /** The completions pushed so far, each with its index, are those of `p`. */
  ghost predicate Listed(successes: seq<(nat, Value)>, failures: seq<(nat, DurableError)>, p: Progress) {
    && |successes| == SuccessCount(p) && |failures| == FailureCount(p)
    && (forall i :: 0 <= i < |successes| ==> successes[i].0 < |p| && p[successes[i].0] == Some(Ok(successes[i].1)))
    && (forall i :: 0 <= i < |failures| ==> failures[i].0 < |p| && p[failures[i].0] == Some(Err(failures[i].1)))
    && (forall i, j :: 0 <= i < j < |successes| ==> successes[i].0 != successes[j].0)
    && (forall i, j :: 0 <= i < j < |failures| ==> failures[i].0 != failures[j].0)
  }

  /** The indices in flight are those of `p` without an outcome. */
  ghost predicate InFlight(started: set<nat>, p: Progress) {
    && |started| + CompletedCount(p) == |p|
    && forall i: nat :: i in started <==> i < |p| && p[i].None?
  }

  ghost predicate LoopState(
      successes: seq<(nat, Value)>, failures: seq<(nat, DurableError)>, started: set<nat>, p: Progress,
      outcomes: seq<Outcome>)
  {
    Listed(successes, failures, p) && InFlight(started, p) && GivesOutcomes(p, outcomes)
  }

  lemma SuccessKeepsLists(
      successes: seq<(nat, Value)>, failures: seq<(nat, DurableError)>, started: set<nat>, p: Progress, i: nat, v: Value)
    requires Listed(successes, failures, p) && InFlight(started, p) && i in started
    ensures Listed(successes + [(i, v)], failures, p[i := Some(Ok(v))])
    ensures InFlight(started - {i}, p[i := Some(Ok(v))])
  {
    CountsAfterCompletion(p, i, Ok(v));
  }

  lemma FailureKeepsLists(
      successes: seq<(nat, Value)>, failures: seq<(nat, DurableError)>, started: set<nat>, p: Progress,
      i: nat, e: DurableError)
    requires Listed(successes, failures, p) && InFlight(started, p) && i in started
    ensures Listed(successes, failures + [(i, e)], p[i := Some(Err(e))])
    ensures InFlight(started - {i}, p[i := Some(Err(e))])
  {
    CountsAfterCompletion(p, i, Err(e));
  }

  function SuccessItems(s: seq<(nat, Value)>): (items: seq<BatchItem>)
    ensures |items| == |s|
    ensures forall i :: 0 <= i < |s| ==> items[i] == BatchItem(s[i].0, ItemSucceeded, Some(s[i].1), None)
  {
    seq(|s|, i requires 0 <= i < |s| => BatchItem(s[i].0, ItemSucceeded, Some(s[i].1), None))
  }

  function FailureItems(s: seq<(nat, DurableError)>): (items: seq<BatchItem>)
    ensures |items| == |s|
    ensures forall i :: 0 <= i < |s| ==> items[i] == BatchItem(s[i].0, ItemFailed, None, Some(s[i].1))
  {
    seq(|s|, i requires 0 <= i < |s| => BatchItem(s[i].0, ItemFailed, None, Some(s[i].1)))
  }

  function StartedItems(s: seq<nat>): (items: seq<BatchItem>)
    ensures |items| == |s|
    ensures forall i :: 0 <= i < |s| ==> items[i] == BatchItem(s[i], ItemStarted, None, None)
  {
    seq(|s|, i requires 0 <= i < |s| => BatchItem(s[i], ItemStarted, None, None))
  }

  /** The started children without an outcome, each listed once. */
  ghost predicate OpenList(order: seq<nat>, p: Progress) {
    && |order| + CompletedCount(p) == |p|
    && (forall i :: 0 <= i < |order| ==> order[i] < |p| && p[order[i]].None?)
    && (forall i, j :: 0 <= i < j < |order| ==> order[i] != order[j])
  }

  lemma AllDistinct(
      successes: seq<(nat, Value)>, failures: seq<(nat, DurableError)>, order: seq<nat>, all: seq<BatchItem>, p: Progress)
    requires all == SuccessItems(successes) + FailureItems(failures) + StartedItems(order)
    requires forall k :: 0 <= k < |all| ==> all[k].index < |p| && all[k] == ItemOf(all[k].index, p[all[k].index])
    requires forall i, j :: 0 <= i < j < |successes| ==> successes[i].0 != successes[j].0
    requires forall i, j :: 0 <= i < j < |failures| ==> failures[i].0 != failures[j].0
    requires forall i, j :: 0 <= i < j < |order| ==> order[i] != order[j]
    ensures Distinct(all)
  {
    var ss, fs, os := SuccessItems(successes), FailureItems(failures), StartedItems(order);
    forall i, j | 0 <= i < j < |all|
      ensures all[i].index != all[j].index
    {
      if all[i].status == all[j].status {
        assert all[i] == if i < |ss| then ss[i] else if i < |ss| + |fs| then fs[i - |ss|] else os[i - |ss| - |fs|];
        assert all[j] == if j < |ss| then ss[j] else if j < |ss| + |fs| then fs[j - |ss|] else os[j - |ss| - |fs|];
      }
    }
  }

  lemma AllItems(successes: seq<(nat, Value)>, failures: seq<(nat, DurableError)>, order: seq<nat>, p: Progress)
    requires Listed(successes, failures, p) && OpenList(order, p)
    ensures Sorted(SuccessItems(successes) + FailureItems(failures) + StartedItems(order)) == ItemsOf(p)
  {
    var ss, fs, os := SuccessItems(successes), FailureItems(failures), StartedItems(order);
    var all := ss + fs + os;
    forall k | 0 <= k < |all|
      ensures all[k].index < |p| && all[k] == ItemOf(all[k].index, p[all[k].index])
    {
      if k < |ss| {
        assert all[k] == ss[k];
      } else if k < |ss| + |fs| {
        assert all[k] == fs[k - |ss|];
      } else {
        assert all[k] == os[k - |ss| - |fs|];
      }
    }
    AllDistinct(successes, failures, order, all, p);
    SortFills(all, p);
  }

  /** The indices in flight in whatever order the set gives them. */
  method ListStarted(started: set<nat>, ghost p: Progress) returns (order: seq<nat>)
    requires InFlight(started, p)
    ensures OpenList(order, p)
  {
    order := [];
    var rest := started;
    while rest != {}
      invariant rest <= started && |order| + |rest| == |started|
      invariant forall i :: 0 <= i < |order| ==> order[i] in started && order[i] !in rest
      invariant forall i, j :: 0 <= i < j < |order| ==> order[i] != order[j]
      decreases |rest|
    {
      var i :| i in rest;
      order := order + [i];
      rest := rest - {i};
    }
  }

  /** Pushes the items list by list and sorts them. */
  method Assemble(successes: seq<(nat, Value)>, failures: seq<(nat, DurableError)>, started: seq<nat>, ghost p: Progress)
    returns (all: seq<BatchItem>)
    requires Listed(successes, failures, p) && OpenList(started, p)
    ensures all == ItemsOf(p)
  {
    all := [];
    for i := 0 to |successes|
      invariant all == SuccessItems(successes[..i])
    {
      TakeOneMore(successes, i);
      all := all + [BatchItem(successes[i].0, ItemSucceeded, Some(successes[i].1), None)];
    }
    assert successes[..|successes|] == successes;
    ghost var ss := all;
    for i := 0 to |failures|
      invariant all == ss + FailureItems(failures[..i])
    {
      TakeOneMore(failures, i);
      all := all + [BatchItem(failures[i].0, ItemFailed, None, Some(failures[i].1))];
    }
    assert failures[..|failures|] == failures;
    ghost var fs := all;
    for i := 0 to |started|
      invariant all == fs + StartedItems(started[..i])
    {
      TakeOneMore(started, i);
      all := all + [BatchItem(started[i], ItemStarted, None, None)];
    }
    assert started[..|started|] == started;
    AllItems(successes, failures, started, p);
    all := Sorted(all);
  }

  /** The next child in order, listed where it belongs. */
  lemma NextIsListed(
      successes: seq<(nat, Value)>, failures: seq<(nat, DurableError)>, started: seq<nat>, p: Progress, o: Option<Outcome>)
    requires Listed(successes, failures, p) && OpenList(started, p)
    ensures match o
            case None => Listed(successes, failures, p + [o]) && OpenList(started + [|p|], p + [o])
            case Some(Ok(v)) => Listed(successes + [(|p|, v)], failures, p + [o]) && OpenList(started, p + [o])
            case Some(Err(e)) => Listed(successes, failures + [(|p|, e)], p + [o]) && OpenList(started, p + [o])
  {
    assert (p + [o])[..|p|] == p;
  }

  /** Pushes the next child of a reconstruction to the list it belongs to. */
  method PushChild(
      successes0: seq<(nat, Value)>, failures0: seq<(nat, DurableError)>, started0: seq<nat>, index: nat,
      o: Option<Outcome>, ghost p: Progress)
    returns (successes: seq<(nat, Value)>, failures: seq<(nat, DurableError)>, started: seq<nat>)
    requires Listed(successes0, failures0, p) && OpenList(started0, p) && index == |p|
    ensures Listed(successes, failures, p + [o]) && OpenList(started, p + [o])
  {
    successes, failures, started := successes0, failures0, started0;
    NextIsListed(successes, failures, started, p, o);
    match o {
      case None => started := started + [index];
      case Some(Ok(v)) => successes := successes + [(index, v)];
      case Some(Err(e)) => failures := failures + [(index, e)];
    }
  }

  // ----- The operation -----

  datatype Mode = Execution | Replay

  /** How a batch call ends: `Waiting` and `Halted` end the invocation, `Panicked` is `unreachable!`. */
  datatype BatchEnd =
    | Finished(b: BatchResult)
    | Raised(e: DurableError)
    | Waiting
    | Halted
    | Panicked

  /** How the scheduling loop ends. */
  datatype LoopEnd = Complete | Suspended | OutOfWork

  /** The default name of an item, as the code formats it. */
  function ItemName(f: Flavour, name: Option<string>, i: nat): string {
    name.GetOr(DefaultName(f)) + (if f == Map then "-item-" else "-branch-") + Decimal.Print(i)
  }

  /** The names of the items: the given ones, and default ones for the rest. */
  function ItemNames(f: Flavour, name: Option<string>, given: seq<Option<string>>): (names: seq<string>)
    ensures |names| == |given|
    ensures forall i :: 0 <= i < |given| ==> names[i] == given[i].GetOr(ItemName(f, name, i))
  {
    seq(|given|, i requires 0 <= i < |given| => given[i].GetOr(ItemName(f, name, i)))
  }

  /** Items without a name are called after the batch, or its kind, and numbered from zero. */
  lemma DefaultNames(name: string, i: nat)
    ensures ItemName(Map, Some(name), i) == name + "-item-" + Decimal.Print(i)
    ensures ItemName(Map, None, i) == "map" + "-item-" + Decimal.Print(i)
    ensures ItemName(Parallel, Some(name), i) == name + "-branch-" + Decimal.Print(i)
    ensures ItemName(Parallel, None, i) == "parallel" + "-branch-" + Decimal.Print(i)
  {
  }

  lemma SameEnd(a: string, s: string, t: string)
    requires a + s == a + t
    ensures s == t
  {
    assert (a + s)[|a|..] == s && (a + t)[|a|..] == t;
  }

  /** No two of them have the same name. */
  lemma DefaultNamesDiffer(f: Flavour, name: Option<string>, i: nat, j: nat)
    requires ItemName(f, name, i) == ItemName(f, name, j)
    ensures i == j
  {
    SameEnd(name.GetOr(DefaultName(f)) + (if f == Map then "-item-" else "-branch-"), Decimal.Print(i), Decimal.Print(j));
    Decimal.PrintIsInjective(i, j);
  }

  /** What the record of child `i` says. */
  function ReadAt(
      prefix: Path, snap: Engine.Store, env: Env, counter: nat, names: seq<string>, reruns: seq<Outcome>, i: nat):
      ChildRead
    requires i < |names| == |reruns|
  {
    var key := prefix + [Entry(Some(names[i]), counter + i)];
    ReadChild(Engine.Get(snap, key), key, env, reruns[i])
  }

  /** What the records say of the first `n` children. */
  function ChildReads(
      prefix: Path, snap: Engine.Store, env: Env, counter: nat, names: seq<string>, reruns: seq<Outcome>, n: nat):
      (rs: seq<ChildRead>)
    requires n <= |names| && |reruns| == |names|
    ensures |rs| == n
  {
    if n == 0 then []
    else
      var front := ChildReads(prefix, snap, env, counter, names, reruns, n - 1);
      front + [ReadAt(prefix, snap, env, counter, names, reruns, n - 1)]
  }

  /** The children's ids: by index, the next operations of the enclosing context. */
  predicate AreChildKeys(keys: seq<Path>, prefix: Path, counter: nat, names: seq<string>) {
    && |keys| <= |names|
    && forall i :: 0 <= i < |keys| ==> keys[i] == prefix + [Entry(Some(names[i]), counter + i)]
  }

  /** Some order of completion ends in this state. */
  ghost predicate RanAs(p: Progress, outcomes: seq<Outcome>, cfg: CompletionConfig, maxConcurrency: Option<nat>) {
    exists joins :: Ends(SetupFor(outcomes, cfg, maxConcurrency), joins, p)
  }

  /**
   How a replay that decided `d` ends, and where it leaves the counter it found at `before`:
   the record and the children's records decide everything.
   */
  predicate ReplayGives(
      r: BatchEnd, after: nat, d: ReplayDecision, prefix: Path, snap: Engine.Store, env: Env, names: seq<string>,
      cfg: CompletionConfig, reruns: seq<Outcome>, before: nat)
    requires |reruns| == |names|
  {
    match d
    case Rejected(e) => r == Raised(e)
    case Halt => r == Halted
    case ReturnBatch(b) => r == Finished(b) && after == before + Consumed(d)
    case Continue => false
    case Reconstruct(t) =>
      t <= |names| &&
      match Reconstructed(ChildReads(prefix, snap, env, before, names, reruns, t), |names|, cfg)
      case Err(e) => r == Raised(e)
      case Ok(b) => r == Finished(b) && after == before + Consumed(d)
  }

  lemma StartKeepsState(
      successes: seq<(nat, Value)>, failures: seq<(nat, DurableError)>, started: set<nat>, p: Progress,
      outcomes: seq<Outcome>)
    requires LoopState(successes, failures, started, p, outcomes) && |p| < |outcomes|
    ensures LoopState(successes, failures, started + {|p|}, p + [None], outcomes)
    ensures |started + {|p|}| == |started| + 1
  {
    CountsAfterStart(p);
    assert |p| !in started;
  }

  lemma OneMoreChild(keys: seq<Path>, child: Path, prefix: Path, base: nat, names: seq<string>)
    requires AreChildKeys(keys, prefix, base, names) && |keys| < |names|
    requires child == prefix + [Entry(Some(names[|keys|]), base + |keys|)]
    ensures AreChildKeys(keys + [child], prefix, base, names)
  {
  }

  lemma OneMoreRead(
      prefix: Path, snap: Engine.Store, env: Env, counter: nat, names: seq<string>, reruns: seq<Outcome>, i: nat)
    requires i < |names| == |reruns|
    ensures Rebuild(ChildReads(prefix, snap, env, counter, names, reruns, i + 1))
         == match Rebuild(ChildReads(prefix, snap, env, counter, names, reruns, i))
            case Err(e) => Err(e)
            case Ok(p) =>
              match ReadAt(prefix, snap, env, counter, names, reruns, i)
              case Missing => Err(ReplayValidationFailed(MissingChild(i)))
              case NoOutput => Err(Internal("Missing child context output in replay"))
              case Read(o) => Ok(p + [o])
  {
    var rs := ChildReads(prefix, snap, env, counter, names, reruns, i + 1);
    assert rs[..i] == ChildReads(prefix, snap, env, counter, names, reruns, i);
  }

  /** An error among the first children's records is the error of all. */
  lemma {:induction false} FirstReadsDecide(
      prefix: Path, snap: Engine.Store, env: Env, counter: nat, names: seq<string>, reruns: seq<Outcome>, i: nat, n: nat)
    requires i <= n <= |names| == |reruns|
    requires Rebuild(ChildReads(prefix, snap, env, counter, names, reruns, i)).Err?
    ensures Rebuild(ChildReads(prefix, snap, env, counter, names, reruns, n))
         == Rebuild(ChildReads(prefix, snap, env, counter, names, reruns, i))
  {
    if i < n {
      FirstReadsDecide(prefix, snap, env, counter, names, reruns, i, n - 1);
      OneMoreRead(prefix, snap, env, counter, names, reruns, n - 1);
    }
  }

  /** One round of the loop that joins child `i` of those in flight after starting. */
  lemma JoinStep(z: Setup, joins: seq<nat>, before: Progress, i: nat)
    requires z.Valid() && After(z, joins) == Some(before) && !Stopped(z, before)
    requires i < |Fill(z, before)| && i < z.Total() && Fill(z, before)[i].None?
    ensures var o := z.outcomes[i];
            var q := Fill(z, before)[i := Some(o)];
            && After(z, joins + [i]) == Some(q)
            && CompletedCount(q) == CompletedCount(before) + 1
            && (Stopped(z, q) <==> Stops(SuccessCount(q), FailureCount(q), z.Total(), z.cfg))
            && SuccessCount(q) == SuccessCount(before) + (if o.Ok? then 1 else 0)
            && FailureCount(q) == FailureCount(before) + (if o.Err? then 1 else 0)
  {
    AfterOneMore(z, joins, before, i);
    CountsAfterCompletion(Fill(z, before), i, z.outcomes[i]);
    FillCounts(z, before);
  }

  /** Once a child has been joined, a loop that may go on has something in flight. */
  lemma RunsOutAtFirst(z: Setup, joins: seq<nat>, p: Progress)
    requires z.Valid() && After(z, joins) == Some(p) && !Stopped(z, p) && OpenCount(Fill(z, p)) == 0
    ensures joins == [] && p == Fill(z, p) == []
  {
    StatesAreOk(z, joins);
    FillIsFull(z, p);
    FillCounts(z, p);
    if joins != [] {
      FirstJoinStarts(z, joins);
      MayGoOn(z, p);
    }
  }

  lemma NothingToRun(outcomes: seq<Outcome>, cfg: CompletionConfig, maxConcurrency: Option<nat>)
    requires ValidConfig(cfg, |outcomes|) && outcomes == []
    ensures RanAs([], outcomes, cfg, maxConcurrency)
  {
    var z := SetupFor(outcomes, cfg, maxConcurrency);
    FirstFill(z);
    assert Ends(z, [], []);
  }

  lemma OutOfWorkExactly(z: Setup, joins: seq<nat>, p: Progress, end: LoopEnd)
    requires z.Valid() && After(z, joins).Some?
    requires end != Suspended ==> Ends(z, joins, p) && (end == OutOfWork <==> joins == [])
    requires end == Suspended ==> p == Fill(z, After(z, joins).value) && p != []
    ensures end == OutOfWork <==> z.Total() == 0 || z.cfg.minSuccessful == Some(0)
  {
    FirstFill(z);
    if joins != [] {
      FirstJoinStarts(z, joins);
    }
  }

  class BatchContext {
    const prefix: Path
    const snap: Engine.Store
    const env: Env
    const codec: JsonCodec
    var counter: nat
    var mode: Mode
    var sent: seq<(Path, Write)>

    constructor (prefix: Path, snap: Engine.Store, env: Env, codec: JsonCodec, counter: nat, mode: Mode)
      ensures this.prefix == prefix && this.snap == snap && this.env == env && this.codec == codec
      ensures this.counter == counter && this.mode == mode && sent == []
    {
      this.prefix, this.snap, this.env, this.codec := prefix, snap, env, codec;
      this.counter, this.mode, this.sent := counter, mode, [];
    }

    method NextOperationId(name: Option<string>) returns (key: Path)
      modifies this`counter
      ensures key == prefix + [Entry(name, old(counter))] && counter == old(counter) + 1
    {
      key := prefix + [Entry(name, counter)];
      counter := counter + 1;
    }

    /** Gives the next child its operation id and puts it in flight. */
    method StartChild(
        names: seq<string>, successes: seq<(nat, Value)>, failures: seq<(nat, DurableError)>, started0: set<nat>,
        spawned0: seq<Path>, outcomes: seq<Outcome>, ghost p0: Progress, ghost base: nat)
      returns (started: set<nat>, spawned: seq<Path>, ghost p: Progress)
      requires |outcomes| == |names| && LoopState(successes, failures, started0, p0, outcomes)
      requires counter == base + |p0| && |spawned0| == |p0| < |names| && AreChildKeys(spawned0, prefix, base, names)
      modifies this`counter
      ensures LoopState(successes, failures, started, p, outcomes) && p == p0 + [None]
      ensures counter == base + |p| && |spawned| == |p| && AreChildKeys(spawned, prefix, base, names)
    {
      var index := |spawned0|;
      var child := NextOperationId(Some(names[index]));
      StartKeepsState(successes, failures, started0, p0, outcomes);
      OneMoreChild(spawned0, child, prefix, base, names);
      started, spawned, p := started0 + {index}, spawned0 + [child], p0 + [None];
    }

    /** The inner loop: starts children while there is room, work, and no reason to stop. */
    method StartChildren(
        z: Setup, names: seq<string>, successes: seq<(nat, Value)>, failures: seq<(nat, DurableError)>,
        started0: set<nat>, spawned0: seq<Path>, ghost p0: Progress, ghost base: nat)
      returns (started: set<nat>, spawned: seq<Path>, ghost p: Progress)
      requires z.Total() == |names| && LoopState(successes, failures, started0, p0, z.outcomes)
      requires counter == base + |p0| && |spawned0| == |p0| && AreChildKeys(spawned0, prefix, base, names)
      modifies this`counter
      ensures LoopState(successes, failures, started, p, z.outcomes) && p == Fill(z, p0)
      ensures counter == base + |p| && |spawned| == |p| && AreChildKeys(spawned, prefix, base, names)
    {
      started, spawned, p := started0, spawned0, p0;
      while |started| < z.limit && ShouldContinue(|failures|, |names|, z.cfg)
        invariant LoopState(successes, failures, started, p, z.outcomes) && Fill(z, p) == Fill(z, p0)
        invariant counter == base + |p| && |spawned| == |p| && AreChildKeys(spawned, prefix, base, names)
        decreases |names| - |p|
      {
        if z.cfg.minSuccessful.Some? {
          if |successes| >= z.cfg.minSuccessful.value {
            break;
          }
        }
        if |spawned| == |names| {
          break;
        }
        FillOneMore(z, p);
        started, spawned, p := StartChild(names, successes, failures, started, spawned, z.outcomes, p, base);
      }
    }

    /** Joins one child in flight, whichever finishes first. */
    method JoinNext(
        successes0: seq<(nat, Value)>, failures0: seq<(nat, DurableError)>, started0: set<nat>, outcomes: seq<Outcome>,
        ghost p0: Progress)
      returns (successes: seq<(nat, Value)>, failures: seq<(nat, DurableError)>, started: set<nat>, ghost index: nat)
      requires LoopState(successes0, failures0, started0, p0, outcomes) && started0 != {}
      ensures index < |p0| && p0[index].None?
      ensures LoopState(successes, failures, started, p0[index := Some(outcomes[index])], outcomes)
    {
      successes, failures, started := successes0, failures0, started0;
      var joined :| joined in started;
      index := joined;
      match outcomes[joined] {
        case Ok(v) =>
          SuccessKeepsLists(successes, failures, started, p0, joined, v);
          successes := successes + [(joined, v)];
        case Err(e) =>
          FailureKeepsLists(successes, failures, started, p0, joined, e);
          failures := failures + [(joined, e)];
      }
      started := started - {joined};
    }

    /**
     The scheduling loop.  `z.outcomes[i]` is what child `i` returns if it is joined; which child in
     flight is joined next, and whether any is, is left open.  The children joined are `joins`.
     */
    method RunLoop(z: Setup, names: seq<string>)
      returns (end: LoopEnd, successes: seq<(nat, Value)>, failures: seq<(nat, DurableError)>, started: set<nat>,
               spawned: seq<Path>, ghost joins: seq<nat>, ghost p: Progress)
      requires z.Valid() && z.Total() == |names|
      modifies this`counter
      ensures LoopState(successes, failures, started, p, z.outcomes)
      ensures counter == old(counter) + |p| && |spawned| == |p| && AreChildKeys(spawned, prefix, old(counter), names)
      ensures After(z, joins).Some?
      ensures p == if end == Suspended then Fill(z, After(z, joins).value) else After(z, joins).value
      ensures end != Suspended ==> Ends(z, joins, p) && (end == OutOfWork <==> joins == [])
      ensures end == Suspended ==> p != []
    {
      successes, failures, started, spawned, joins, p := [], [], {}, [], [], [];
      while true
        invariant LoopState(successes, failures, started, p, z.outcomes) && |p| <= z.Total()
        invariant counter == old(counter) + |p| && |spawned| == |p| && AreChildKeys(spawned, prefix, old(counter), names)
        invariant After(z, joins) == Some(p) && !Stopped(z, p)
        decreases z.Total() - CompletedCount(p)
      {
        ghost var before := p;
        started, spawned, p := StartChildren(z, names, successes, failures, started, spawned, p, old(counter));
        if started == {} {
          RunsOutAtFirst(z, joins, before);
          end := OutOfWork;
          break;
        }
        if * {
          // No child in flight ever returns: each suspends, or the invocation is cut.
          end := Suspended;
          break;
        }
        ghost var index;
        successes, failures, started, index := JoinNext(successes, failures, started, z.outcomes, p);
        JoinStep(z, joins, before, index);
        joins := joins + [index];
        p := p[index := Some(z.outcomes[index])];
        var completed := |successes| + |failures|;
        if completed == |names| || MinReached(|successes|, z.cfg) || !ShouldContinue(|failures|, |names|, z.cfg) {
          end := Complete;
          break;
        }
      }
    }

    /** The START of a batch that has no record yet. */
    ghost function Started(key: Path): seq<(Path, Write)> {
      if key in snap then [] else [(key, Write(ContextKind, Start, None, None, false))]
    }

    /** A batch that was run, from the given counter and log: each started child took one operation number. */
    ghost predicate Executed(
        r: BatchEnd, f: Flavour, key: Path, names: seq<string>, cfg: CompletionConfig, maxConcurrency: Option<nat>,
        outcomes: seq<Outcome>, p: Progress, counter0: nat, sent0: seq<(Path, Write)>)
      reads this
    {
      && |p| <= |names| && GivesOutcomes(p, outcomes) && counter == counter0 + |p|
      && (r.Finished? || r == Waiting || r == Panicked)
      && (r == Panicked <==> f == Map && names != [] && cfg.minSuccessful == Some(0))
      && (maxConcurrency.Some? ==> OpenCount(p) <= Max(maxConcurrency.value, 1))
      && (!r.Finished? ==> sent == sent0)
      && (r.Finished? ==>
            && r.b == BatchOf(p, |names|, cfg)
            && sent == sent0 + [(key, CompletionWrite(f, p, r.b, codec))]
            && RanAs(p, outcomes, cfg, maxConcurrency))
    }

    /** `run_map_execution` and `run_parallel_execution`, for the batch with id `key`. */
    method RunExecution(
        f: Flavour, key: Path, names: seq<string>, cfg: CompletionConfig, maxConcurrency: Option<nat>,
        outcomes: seq<Outcome>)
      returns (r: BatchEnd, spawned: seq<Path>, ghost p: Progress)
      requires ValidConfig(cfg, |names|) && |outcomes| == |names|
      modifies this`counter, this`sent
      ensures Executed(r, f, key, names, cfg, maxConcurrency, outcomes, p, old(counter), old(sent))
      ensures |spawned| == |p| && AreChildKeys(spawned, prefix, old(counter), names)
    {
      p, spawned := [], [];
      if f == Map && names == [] {
        var empty := BatchResult([], Reason(0, 0, 0, 0, cfg));
        NothingToRun(outcomes, cfg, maxConcurrency);
        SendCompletion(f, key, empty, 0, 0, 0, p);
        return Finished(empty), spawned, p;
      }
      var limit := EffectiveConcurrency(maxConcurrency, |names|);
      var end, successes, failures, started;
      var z := Setup(outcomes, cfg, limit);
      ghost var joins;
      end, successes, failures, started, spawned, joins, p := RunLoop(z, names);
      OutOfWorkExactly(z, joins, p, end);
      InFlightIsLimited(outcomes, cfg, maxConcurrency, joins);
      if end == LoopEnd.Suspended {
        return Waiting, spawned, p;
      }
      if end == OutOfWork && f == Map {
        return Panicked, spawned, p;
      }
      var b := FinishBatch(f, key, successes, failures, started, |names|, cfg, p);
      r := Finished(b);
    }

    /** Puts the batch together and records it. */
    method FinishBatch(
        f: Flavour, key: Path, successes: seq<(nat, Value)>, failures: seq<(nat, DurableError)>, started: set<nat>,
        total: nat, cfg: CompletionConfig, ghost p: Progress)
      returns (b: BatchResult)
      requires Listed(successes, failures, p) && InFlight(started, p)
      modifies this`sent
      ensures b == BatchOf(p, total, cfg)
      ensures sent == old(sent) + [(key, CompletionWrite(f, p, b, codec))]
    {
      var open := ListStarted(started, p);
      var all := Assemble(successes, failures, open, p);
      var reason := Reason(|failures|, |successes|, |successes| + |failures|, total, cfg);
      b := BatchResult(all, reason);
      SendCompletion(f, key, b, |successes|, |failures|, |open|, p);
    }

    /** Sends the update that completes the batch: its payload, or a summary when that is too big. */
    method SendCompletion(
        f: Flavour, key: Path, b: BatchResult, successes: nat, failures: nat, started: nat, ghost p: Progress)
      requires successes == SuccessCount(p) && failures == FailureCount(p) && successes + failures + started == |p|
      modifies this`sent
      ensures sent == old(sent) + [(key, CompletionWrite(f, p, b, codec))]
    {
      var payload := Serialize(b, codec);
      var replayChildren := false;
      if |payload| > Engine.CHECKPOINT_SIZE_LIMIT_BYTES {
        var total := successes + failures + started;
        payload := codec.toText(SummaryPayload(f, total, successes, failures, started, b.reason));
        replayChildren := true;
      }
      sent := sent + [(key, Write(ContextKind, Succeed, Some(payload), None, replayChildren))];
    }

    /** The next child's id, and what its record says; `p` is what the children before it say. */
    method ReadNext(
        names: seq<string>, totalCount: nat, reruns: seq<Outcome>, index: nat, ghost first: nat, ghost p: Progress)
      returns (read: ChildRead)
      requires index < totalCount <= |names| && |reruns| == |names| && counter == first + index
      requires Rebuild(ChildReads(prefix, snap, env, first, names, reruns, index)) == Ok(p)
      modifies this`counter
      ensures counter == old(counter) + 1
      ensures match read
              case Missing =>
                Rebuild(ChildReads(prefix, snap, env, first, names, reruns, totalCount))
                  == Err(ReplayValidationFailed(MissingChild(index)))
              case NoOutput =>
                Rebuild(ChildReads(prefix, snap, env, first, names, reruns, totalCount))
                  == Err(Internal("Missing child context output in replay"))
              case Read(o) =>
                Rebuild(ChildReads(prefix, snap, env, first, names, reruns, index + 1)) == Ok(p + [o])
    {
      var child := NextOperationId(Some(names[index]));
      read := ReadChild(Engine.Get(snap, child), child, env, reruns[index]);
      OneMoreRead(prefix, snap, env, first, names, reruns, index);
      if !read.Read? {
        FirstReadsDecide(prefix, snap, env, first, names, reruns, index + 1, totalCount);
      }
    }

    /** The loop of `reconstruct_map_from_children`; `reruns` are the values of children that are run again. */
    method ReadChildren(names: seq<string>, totalCount: nat, reruns: seq<Outcome>)
      returns (e: Option<DurableError>, successes: seq<(nat, Value)>, failures: seq<(nat, DurableError)>,
               started: seq<nat>, ghost p: Progress)
      requires |reruns| == |names| && totalCount <= |names|
      modifies this`counter
      ensures Listed(successes, failures, p) && OpenList(started, p)
      ensures Rebuild(ChildReads(prefix, snap, env, old(counter), names, reruns, totalCount))
           == if e.Some? then Err(e.value) else Ok(p)
      ensures e.None? ==> counter == old(counter) + totalCount
      ensures old(counter) <= counter <= old(counter) + totalCount
    {
      e, successes, failures, started, p := None, [], [], [], [];
      for index := 0 to totalCount
        invariant counter == old(counter) + index && |p| == index && e.None?
        invariant Rebuild(ChildReads(prefix, snap, env, old(counter), names, reruns, index)) == Ok(p)
        invariant Listed(successes, failures, p) && OpenList(started, p)
      {
        var read := ReadNext(names, totalCount, reruns, index, old(counter), p);
        match read {
          case Missing =>
            e := Some(ReplayValidationFailed(MissingChild(index)));
            return;
          case NoOutput =>
            e := Some(Internal("Missing child context output in replay"));
            return;
          case Read(o) =>
            successes, failures, started := PushChild(successes, failures, started, index, o, p);
            p := p + [o];
        }
      }
    }

    /** `reconstruct_map_from_children` and `reconstruct_parallel_from_children`. */
    method ReconstructFromChildren(names: seq<string>, totalCount: nat, cfg: CompletionConfig, reruns: seq<Outcome>)
      returns (r: Result<BatchResult, DurableError>)
      requires |reruns| == |names|
      modifies this`counter
      ensures if totalCount > |names| then r == Err(ReplayValidationFailed(TooManyItems(|names|, totalCount)))
              else r == Reconstructed(ChildReads(prefix, snap, env, old(counter), names, reruns, totalCount), |names|, cfg)
      ensures r.Ok? ==> counter == old(counter) + totalCount
      ensures old(counter) <= counter <= old(counter) + totalCount
    {
      if totalCount > |names| {
        return Err(ReplayValidationFailed(TooManyItems(|names|, totalCount)));
      }
      var e, successes, failures, started;
      ghost var p;
      e, successes, failures, started, p := ReadChildren(names, totalCount, reruns);
      if e.Some? {
        return Err(e.value);
      }
      var all := Assemble(successes, failures, started, p);
      var reason := Reason(|failures|, |successes|, |successes| + |failures|, |names|, cfg);
      r := Ok(BatchResult(all, reason));
    }

    /** `evaluate_map_replay`: a full payload consumes the children's operation numbers at once. */
    method EvaluateRecord(f: Flavour, name: Option<string>, key: Path, names: seq<string>) returns (d: ReplayDecision)
      modifies this`counter, this`mode
      ensures d == EvaluateBatch(f, name, Engine.Get(snap, key), |names|, codec)
      ensures counter == old(counter) + (if d.ReturnBatch? then Consumed(d) else 0)
      ensures mode == if key in snap && !Final(snap[key]) then Execution else old(mode)
    {
      var op := Engine.Get(snap, key);
      if op.None? {
        return Continue;
      }
      match op.value.status {
        case Failed =>
          var message := op.value.error.GetOr("Batch operation failed");
          d := Rejected(BatchOperationFailed(name.GetOr(DefaultName(f)), message));
        case Succeeded =>
          d := Continue;
          if op.value.result.Some? {
            d := EvaluateResult(f, op.value.result.value, names);
          }
        case _ =>
          mode := Execution;
          d := Continue;
      }
    }

    /** The payload of a finished batch; a full one consumes its children's operation numbers. */
    method EvaluateResult(f: Flavour, payload: string, names: seq<string>) returns (d: ReplayDecision)
      modifies this`counter
      ensures d == EvaluatePayload(f, payload, |names|, codec)
      ensures counter == old(counter) + (if d.ReturnBatch? then Consumed(d) else 0)
    {
      var parsed := codec.fromText(payload);
      if IsSummary(f, parsed) {
        var totalCount := AsNat(Field(parsed.value, "totalCount"));
        if totalCount.None? {
          return Continue;
        }
        if totalCount.value > |names| {
          return Rejected(ReplayValidationFailed(TooManyItems(|names|, totalCount.value)));
        }
        return Reconstruct(totalCount.value);
      }
      var batch := Deserialize(payload, codec);
      if batch.Err? {
        return Halt;
      }
      var target := TargetCount(batch.value.all);
      if target > |names| {
        return Rejected(ReplayValidationFailed(TooManyItems(|names|, target)));
      }
      for index := 0 to target
        invariant counter == old(counter) + index
      {
        var consumed := NextOperationId(Some(names[index]));
      }
      d := ReturnBatch(batch.value);
    }

    /** A batch too big for its payload is put together from its children. */
    method ReplayChildren(names: seq<string>, totalCount: nat, cfg: CompletionConfig, reruns: seq<Outcome>)
      returns (r: BatchEnd)
      requires |reruns| == |names| && totalCount <= |names|
      modifies this`counter
      ensures ReplayGives(r, counter, Reconstruct(totalCount), prefix, snap, env, names, cfg, reruns, old(counter))
    {
      var rebuilt := ReconstructFromChildren(names, totalCount, cfg, reruns);
      match rebuilt {
        case Ok(b) => r := Finished(b);
        case Err(e) => r := Raised(e);
      }
    }

    /** The replay half; `None` means: run the batch. */
    method ReplayRecord(
        f: Flavour, name: Option<string>, key: Path, names: seq<string>, cfg: CompletionConfig, reruns: seq<Outcome>)
      returns (r: Option<BatchEnd>)
      requires |reruns| == |names|
      modifies this`counter, this`mode
      ensures var d := EvaluateBatch(f, name, Engine.Get(snap, key), |names|, codec);
              if d.Continue? then r.None? && counter == old(counter)
              else r.Some? && ReplayGives(r.value, counter, d, prefix, snap, env, names, cfg, reruns, old(counter))
    {
      var decision := EvaluateRecord(f, name, key, names);
      match decision {
        case Rejected(e) => r := Some(Raised(e));
        case Halt => r := Some(Halted);
        case ReturnBatch(b) => r := Some(Finished(b));
        case Continue => r := None;
        case Reconstruct(t) =>
          var end := ReplayChildren(names, t, cfg, reruns);
          r := Some(end);
      }
    }

    /** Sends the START of a batch without a record. */
    method SendStart(key: Path)
      modifies this`sent
      ensures sent == old(sent) + Started(key)
    {
      if Engine.Get(snap, key).None? {
        sent := sent + [(key, Write(ContextKind, Start, None, None, false))];
      }
    }

    /** A replay if the mode says so and the record allows it, an execution otherwise. */
    method ReplayOrExecute(
        f: Flavour, name: Option<string>, key: Path, names: seq<string>, cfg: CompletionConfig,
        maxConcurrency: Option<nat>, outcomes: seq<Outcome>, reruns: seq<Outcome>, atEntry: Mode)
      returns (r: BatchEnd, ghost p: Progress)
      requires |outcomes| == |names| == |reruns| && ValidConfig(cfg, |names|)
      modifies this
      ensures |p| <= |names|
      ensures var rec := Engine.Get(snap, key);
              var d := if atEntry == Replay then EvaluateBatch(f, name, rec, |names|, codec) else Continue;
              if d.Continue? then Executed(r, f, key, names, cfg, maxConcurrency, outcomes, p, old(counter), old(sent))
              else ReplayGives(r, counter, d, prefix, snap, env, names, cfg, reruns, old(counter)) && sent == old(sent)
    {
      if atEntry == Replay {
        var replayed := ReplayRecord(f, name, key, names, cfg, reruns);
        if replayed.Some? {
          return replayed.value, [];
        }
      }
      var spawned;
      r, spawned, p := RunExecution(f, key, names, cfg, maxConcurrency, outcomes);
    }

    /** `map` and `parallel`: replay a finished batch, or run it. */
    method Run(
        f: Flavour, name: Option<string>, given: seq<Option<string>>, cfg: CompletionConfig, maxConcurrency: Option<nat>,
        outcomes: seq<Outcome>, reruns: seq<Outcome>)
      returns (r: BatchEnd, key: Path, ghost d: ReplayDecision, ghost p: Progress)
      requires |outcomes| == |given| == |reruns|
      modifies this
      ensures key == prefix + [Entry(name, old(counter))] && |p| <= |given|
      ensures d == if old(mode) == Replay then EvaluateBatch(f, name, Engine.Get(snap, key), |given|, codec) else Continue
      ensures !ValidConfig(cfg, |given|) ==>
                r == Raised(InvalidConfiguration(name.GetOr(DefaultName(f)))) && counter == old(counter) && sent == old(sent)
      ensures ValidConfig(cfg, |given|) && d.Continue? ==>
                Executed(r, f, key, ItemNames(f, name, given), cfg, maxConcurrency, outcomes, p, old(counter) + 1,
                      old(sent) + Started(key))
      ensures ValidConfig(cfg, |given|) && !d.Continue? ==>
                && ReplayGives(r, counter, d, prefix, snap, env, ItemNames(f, name, given), cfg, reruns, old(counter) + 1)
                && sent == old(sent) + Started(key)
    {
      p, d := [], Continue;
      var names := ItemNames(f, name, given);
      key := prefix + [Entry(name, counter)];
      if mode == Replay {
        d := EvaluateBatch(f, name, Engine.Get(snap, key), |names|, codec);
      }
      if !ValidConfig(cfg, |names|) {
        return Raised(InvalidConfiguration(name.GetOr(DefaultName(f)))), key, d, p;
      }
      var atEntry := mode;
      key := NextOperationId(name);
      SendStart(key);
      r, p := ReplayOrExecute(f, name, key, names, cfg, maxConcurrency, outcomes, reruns, atEntry);
    }
  }

  /** A batch's own record is not one of its children's. */
  lemma {:induction false} ReadsIgnoreOwnRecord(
      later: Engine.Store, key: Path, record: Record, env: Env, prefix: Path, counter: nat, names: seq<string>,
      reruns: seq<Outcome>, n: nat)
    requires n <= |names| == |reruns| && |key| == |prefix| + 1 && key[|prefix|].counter < counter
    ensures ChildReads(prefix, later[key := record], env, counter, names, reruns, n)
         == ChildReads(prefix, later, env, counter, names, reruns, n)
  {
    if n > 0 {
      ReadsIgnoreOwnRecord(later, key, record, env, prefix, counter, names, reruns, n - 1);
      assert (prefix + [Entry(Some(names[n - 1]), counter + n - 1)])[|prefix|].counter != key[|prefix|].counter;
    }
  }

  /** Each child is read as `p` has it. */
  predicate ReadAs(rs: seq<ChildRead>, p: Progress) {
    |rs| == |p| && forall i :: 0 <= i < |p| ==> rs[i] == Read(p[i])
  }

  lemma {:induction false} ReconstructsAsRead(
      later: Engine.Store, key: Path, record: Record, env: Env, prefix: Path, counter: nat, names: seq<string>,
      reruns: seq<Outcome>, p: Progress, cfg: CompletionConfig)
    requires |p| <= |names| == |reruns| && |key| == |prefix| + 1 && key[|prefix|].counter < counter
    ensures ReadAs(ChildReads(prefix, later, env, counter, names, reruns, |p|), p)
       <==> Reconstructed(ChildReads(prefix, later[key := record], env, counter, names, reruns, |p|), |names|, cfg)
              == Ok(BatchOf(p, |names|, cfg))
  {
    ReadsIgnoreOwnRecord(later, key, record, env, prefix, counter, names, reruns, |p|);
    ReconstructsExactly(ChildReads(prefix, later, env, counter, names, reruns, |p|), p, |names|, cfg);
  }

  /** A replay from given records. */
  method ReplayFrom(
      snap: Engine.Store, env: Env, codec: JsonCodec, prefix: Path, counter: nat, f: Flavour, name: Option<string>,
      given: seq<Option<string>>, cfg: CompletionConfig, outcomes: seq<Outcome>, reruns: seq<Outcome>)
    returns (r: BatchEnd, after: nat, ghost d: ReplayDecision)
    requires |outcomes| == |given| == |reruns| && ValidConfig(cfg, |given|)
    ensures d == EvaluateBatch(f, name, Engine.Get(snap, prefix + [Entry(name, counter)]), |given|, codec)
    ensures !d.Continue? ==> ReplayGives(r, after, d, prefix, snap, env, ItemNames(f, name, given), cfg, reruns, counter + 1)
  {
    var c := new BatchContext(prefix, snap, env, codec, counter, Replay);
    var key; ghost var p;
    r, key, d, p := c.Run(f, name, given, cfg, None, outcomes, reruns);
    after := c.counter;
  }

  /** The replay of a batch that ran as `p`, from the record it left. */
  method ReplayRecorded(
      later: Engine.Store, env: Env, codec: JsonCodec, prefix: Path, counter: nat, f: Flavour, name: Option<string>,
      given: seq<Option<string>>, cfg: CompletionConfig, outcomes: seq<Outcome>, reruns: seq<Outcome>,
      record: Record, ghost prior: Option<Record>, ghost p: Progress)
    returns (r: BatchEnd, after: nat)
    requires Faithful(codec) && |outcomes| == |given| == |reruns| && |p| <= |given| && ValidConfig(cfg, |given|)
    requires record == ApplyWrite(prior, CompletionWrite(f, p, BatchOf(p, |given|, cfg), codec))
    ensures r.Finished? || r.Raised?
    ensures r.Finished? ==> after == counter + 1 + |p|
    ensures var b := BatchOf(p, |given|, cfg);
            if TooBig(b, codec) then
              var rs := ChildReads(prefix, later, env, counter + 1, ItemNames(f, name, given), reruns, |p|);
              r == Finished(b) <==> ReadAs(rs, p)
            else r == Finished(Normal(b, codec))
  {
    var key := prefix + [Entry(name, counter)];
    CounterAgreement(f, name, prior, p, |given|, cfg, |given|, codec);
    ReconstructsAsRead(later, key, record, env, prefix, counter + 1, ItemNames(f, name, given), reruns, p, cfg);
    ghost var d;
    r, after, d := ReplayFrom(later[key := record], env, codec, prefix, counter, f, name, given, cfg, outcomes, reruns);
  }

  /**
   A batch is run, and its completion recorded; in a later invocation, whatever the children's
   records then are, the same call is replayed.  If both return a batch, both leave the
   enclosing context's counter at the same number, so every later operation keeps its id.
   A batch small enough to be stored is returned again, with its errors as messages; one that
   is too big is returned again exactly when every started child is found as it was.
   */
  method RunThenReplay(
      before: Engine.Store, later: Engine.Store, env: Env, codec: JsonCodec, prefix: Path, counter: nat, f: Flavour,
      name: Option<string>, given: seq<Option<string>>, cfg: CompletionConfig, maxConcurrency: Option<nat>,
      outcomes: seq<Outcome>, reruns: seq<Outcome>)
    returns (first: BatchEnd, firstCounter: nat, second: BatchEnd, secondCounter: nat, ghost p: Progress)
    requires Faithful(codec) && |outcomes| == |given| == |reruns|
    ensures first.Finished? && second.Finished? ==> firstCounter == secondCounter
    ensures first.Finished? && !TooBig(first.b, codec) ==> second == Finished(Normal(first.b, codec))
    ensures |p| <= |given|
    ensures first.Finished? && TooBig(first.b, codec) ==>
              var rs := ChildReads(prefix, later, env, counter + 1, ItemNames(f, name, given), reruns, |p|);
              second == Finished(first.b) <==> ReadAs(rs, p)
    ensures first.Finished? ==> second.Finished? || second.Raised?
  {
    var c := new BatchContext(prefix, before, env, codec, counter, Execution);
    var key; ghost var d;
    first, key, d, p := c.Run(f, name, given, cfg, maxConcurrency, outcomes, reruns);
    firstCounter := c.counter;
    second, secondCounter := first, firstCounter;
    if first.Finished? {
      var prior := Engine.Get(before, key);
      var record := ApplyWrite(prior, c.sent[|c.sent| - 1].1);
      second, secondCounter :=
        ReplayRecorded(later, env, codec, prefix, counter, f, name, given, cfg, outcomes, reruns, record, prior, p);
    }
  }
}
