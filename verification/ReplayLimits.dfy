/**
 Attempt limits of polls: when a poll exceeds its limit, the invocation that finds this out and
 later ones return different errors, so interruption can be observed; for a handler that makes
 one poll, exactly then.
 */
module ReplayLimits {
  import opened Wrappers
  import opened Operations
  import opened ReplayEngine
  import opened ReplayCorrectness
  import opened ReplayRuns
  import PollRuns

  /** The handler that makes one poll and returns its outcome. */
  ghost function OnePoll(cfg: PollConfig): (p: Prog)
    ensures Total(p)
  {
    Call(None, PollLeaf(cfg), imap o: Outcome :: Finish(o))
  }

  const POLL_KEY: Path := [Entry(None, 0)]

  ghost predicate Agrees(p: Prog, h: seq<Event>, i: nat, j: nat, env: Env)
    requires Total(p) && i < |h| && j < |h| && h[i].Invoke? && h[j].Invoke?
  {
    var a, b := RunOf(p, h, i, env).ended, RunOf(p, h, j, env).ended;
    a.Done? && b.Done? ==> a == b
  }

  /** Invocations that return, however the history was cut, return the same. */
  ghost predicate ReturnsAgree(p: Prog, env: Env)
    requires Total(p)
  {
    forall h: seq<Event>, i: nat, j: nat :: i < |h| && j < |h| && h[i].Invoke? && h[j].Invoke? ==>
      Agrees(p, h, i, j, env)
  }

  /** `n` invocations that are long enough to make a check. */
  function Repeated(n: nat, body: nat -> BodyResult): (h: seq<Event>)
    ensures |h| == n && forall i :: 0 <= i < n ==> h[i] == Invoke(3, body)
  {
    seq(n, i => Invoke(3, body))
  }

  lemma PollInvocation(cfg: PollConfig, s: Store, body: nat -> BodyResult, env: Env)
    ensures var z := PollRuns.PollSetting(cfg, POLL_KEY, env);
            var r := Exec(OnePoll(cfg), [], 0, World(s, env, body), s, 3);
            var rec := Get(s, POLL_KEY);
            && Get(r.live, POLL_KEY) == PollRuns.Next(rec, z, PollRuns.Invoke(3))
            && (PollRuns.Returned(rec, z, 3).Some? ==> r.ended == Done(PollRuns.Returned(rec, z, 3).value))
  {
    var z := PollRuns.PollSetting(cfg, POLL_KEY, env);
    var es := PollRuns.PlanOf(Get(s, POLL_KEY), z).effects;
    assert [] + POLL_KEY == POLL_KEY;
    PollRuns.PlansAreShort(Get(s, POLL_KEY), z);
    PerformIsAPrefix([], Entry(None, 0), es, s, 3);
  }

  lemma UncutAppends(n: nat, z: PollRuns.PollSetting)
    ensures PollRuns.After(PollRuns.UncutInvocations(n + 1), z)
         == PollRuns.Next(PollRuns.After(PollRuns.UncutInvocations(n), z), z, PollRuns.Invoke(3))
  {
    var uncut := PollRuns.UncutInvocations(n);
    assert (uncut + [PollRuns.Invoke(3)])[..|uncut|] == uncut;
  }

  lemma OneMoreInvocation(p: Prog, n: nat, body: nat -> BodyResult, env: Env)
    requires Total(p)
    ensures var s := StoreAfter(p, Repeated(n, body), env);
            StoreAfter(p, Repeated(n + 1, body), env) == Exec(p, [], 0, World(s, env, body), s, 3).live
  {
    assert Repeated(n + 1, body)[..n] == Repeated(n, body);
  }

  lemma {:induction false} StoreOfPoll(cfg: PollConfig, n: nat, body: nat -> BodyResult, env: Env)
    ensures Get(StoreAfter(OnePoll(cfg), Repeated(n, body), env), POLL_KEY)
         == PollRuns.After(PollRuns.UncutInvocations(n), PollRuns.PollSetting(cfg, POLL_KEY, env))
  {
    if n > 0 {
      StoreOfPoll(cfg, n - 1, body, env);
      UncutAppends(n - 1, PollRuns.PollSetting(cfg, POLL_KEY, env));
      OneMoreInvocation(OnePoll(cfg), n - 1, body, env);
      PollInvocation(cfg, StoreAfter(OnePoll(cfg), Repeated(n - 1, body), env), body, env);
    }
  }

  /** What the poll gives after `n` such invocations. */
  function PollReturns(cfg: PollConfig, n: nat, env: Env): Option<Outcome> {
    var z := PollRuns.PollSetting(cfg, POLL_KEY, env);
    PollRuns.Returned(PollRuns.After(PollRuns.UncutInvocations(n), z), z, 3)
  }

  lemma RunOfPoll(cfg: PollConfig, n: nat, i: nat, body: nat -> BodyResult, env: Env)
    requires i < n
    ensures var o := PollReturns(cfg, i, env);
            o.Some? ==> RunOf(OnePoll(cfg), Repeated(n, body), i, env).ended == Done(o.value)
  {
    assert Repeated(n, body)[..i] == Repeated(i, body);
    StoreOfPoll(cfg, i, body, env);
    PollInvocation(cfg, StoreAfter(OnePoll(cfg), Repeated(i, body), env), body, env);
  }

  /** The invocation that exceeds the limit and the next one. */
  lemma ExceededTwice(cfg: PollConfig, max: nat, env: Env)
    requires CodecRoundTrips(env) && cfg.maxAttempts == Some(max) && PollRuns.Reaches(cfg, max)
    ensures var first, second := PollReturns(cfg, max, env), PollReturns(cfg, max + 1, env);
            first.Some? && second.Some? && first != second
  {
    var z := PollRuns.PollSetting(cfg, POLL_KEY, env);
    var h := PollRuns.UncutInvocations(max);
    PollRuns.AllAreUncut(z, max);
    PollRuns.NextUncutInvocation(h, z, max, 3);
    PollRuns.RecordCountsUncut(h, z, max);
    PollRuns.ReplayRepeatsUnlessExceeded(h, z, 3, 3);
    UncutAppends(max, z);
  }

  lemma Disagree(p: Prog, h: seq<Event>, i: nat, j: nat, env: Env, a: Outcome, b: Outcome)
    requires Total(p) && i < |h| && j < |h| && h[i].Invoke? && h[j].Invoke?
    requires RunOf(p, h, i, env).ended == Done(a) && RunOf(p, h, j, env).ended == Done(b) && a != b
    ensures !Agrees(p, h, i, j, env)
  {
  }

  lemma ExceededIsObserved(cfg: PollConfig, max: nat, body: nat -> BodyResult, env: Env)
    requires CodecRoundTrips(env) && cfg.maxAttempts == Some(max) && PollRuns.Reaches(cfg, max)
    ensures !Agrees(OnePoll(cfg), Repeated(max + 2, body), max, max + 1, env)
  {
    ExceededTwice(cfg, max, env);
    RunOfPoll(cfg, max + 2, max, body, env);
    RunOfPoll(cfg, max + 2, max + 1, body, env);
    Disagree(OnePoll(cfg), Repeated(max + 2, body), max, max + 1, env,
             PollReturns(cfg, max, env).value, PollReturns(cfg, max + 1, env).value);
  }

  /** A handler that makes one poll returns the same in every invocation exactly if the poll keeps its limit. */
  lemma ReturnsAgreeExactly(cfg: PollConfig, env: Env)
    requires CodecRoundTrips(env)
    ensures ReturnsAgree(OnePoll(cfg), env) <==> KeepsLimit(PollLeaf(cfg))
  {
    var p := OnePoll(cfg);
    if KeepsLimit(PollLeaf(cfg)) {
      forall h: seq<Event>, i: nat, j: nat | i < |h| && j < |h| && h[i].Invoke? && h[j].Invoke?
        ensures Agrees(p, h, i, j, env)
      {
        if RunOf(p, h, i, env).ended.Done? && RunOf(p, h, j, env).ended.Done? {
          InterruptionIsUnobservable(p, h, i, env);
          InterruptionIsUnobservable(p, h, j, env);
        }
      }
    } else {
      var max, body := cfg.maxAttempts.value, (n: nat) => BodyErr("", true);
      var h := Repeated(max + 2, body);
      ExceededIsObserved(cfg, max, body, env);
      assert h[max].Invoke? && h[max + 1].Invoke?;
    }
  }
}
