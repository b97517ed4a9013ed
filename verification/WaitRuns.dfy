/**
 A wait over any number of invocations, each cut after any number of effects, with the service
 ending it at any time: what it returns, and what it writes.
 */
module WaitRuns {
  import opened Wrappers
  import opened Operations

  /** An invocation cut after `cut` effects, or the service ending a wait that has been started. */
  datatype WaitEvent = Invoke(cut: nat) | End(ok: bool)

  datatype WaitState = WaitState(rec: Option<Record>, log: seq<Effect>)

  function Performed(s: WaitState, zero: bool, cut: nat): seq<Effect> {
    var es := WaitPlan(s.rec, zero).effects;
    es[..Min(cut, |es|)]
  }

  function Next(s: WaitState, zero: bool, ev: WaitEvent): WaitState {
    match ev
    case Invoke(cut) =>
      var es := Performed(s, zero, cut);
      WaitState(ApplyEffects(s.rec, es), s.log + es)
    case End(ok) =>
      if s.rec.Some? && s.rec.value.status == Started then
        s.(rec := Some(s.rec.value.(status := if ok then Succeeded else Failed)))
      else s
  }

  function After(h: seq<WaitEvent>, zero: bool): WaitState {
    if h == [] then WaitState(None, []) else Next(After(h[..|h| - 1], zero), zero, h[|h| - 1])
  }

  function Returned(s: WaitState, zero: bool, cut: nat): Option<Outcome> {
    var plan := WaitPlan(s.rec, zero);
    if plan.ending.Return? && |plan.effects| <= cut then Some(plan.ending.o) else None
  }

  /** Some invocation was not cut before it had started the wait. */
  predicate WasStarted(h: seq<WaitEvent>) {
    exists i :: 0 <= i < |h| && h[i].Invoke? && h[i].cut >= 1
  }

  /** How the service first ended the wait after it had been started. */
  function EndedAs(h: seq<WaitEvent>): Option<bool> {
    if h == [] then None
    else
      var front, ev := h[..|h| - 1], h[|h| - 1];
      if EndedAs(front).None? && WasStarted(front) && ev.End? then Some(ev.ok) else EndedAs(front)
  }

  /** The record and the writes after a history of a wait that is not zero. */
  predicate StateSays(s: WaitState, h: seq<WaitEvent>) {
    if !WasStarted(h) then s == WaitState(None, []) && EndedAs(h).None?
    else
      && s.rec.Some?
      && s.rec.value.status == (if EndedAs(h).None? then Started else if EndedAs(h).value then Succeeded else Failed)
      && |s.log| == 1 && s.log[0].Persist? && s.log[0].w.action == Start && s.log[0].w.kind == WaitKind
  }

  lemma StartedAppends(h: seq<WaitEvent>, ev: WaitEvent)
    ensures WasStarted(h + [ev]) <==> WasStarted(h) || (ev.Invoke? && ev.cut >= 1)
  {
    if WasStarted(h) {
      var i :| 0 <= i < |h| && h[i].Invoke? && h[i].cut >= 1;
      assert (h + [ev])[i] == h[i];
    }
    if ev.Invoke? && ev.cut >= 1 {
      assert (h + [ev])[|h|] == ev;
    }
  }

  lemma {:induction false} HistorySays(h: seq<WaitEvent>)
    ensures StateSays(After(h, false), h)
  {
    if h != [] {
      var front, ev := h[..|h| - 1], h[|h| - 1];
      assert h == front + [ev];
      HistorySays(front);
      StartedAppends(front, ev);
      if ev.Invoke? {
        ApplyUnfolds(After(front, false).rec, WaitPlan(After(front, false).rec, false).effects,
                     |Performed(After(front, false), false, ev.cut)|);
      }
    }
  }

  /**
   A wait that is not zero returns exactly when the service has ended it: with `Ok` if it ended
   it as succeeded, with the error if as failed.  Otherwise the invocation suspends or is cut.
   */
  lemma WaitReturnsExactly(h: seq<WaitEvent>, cut: nat)
    ensures Returned(After(h, false), false, cut)
         == match EndedAs(h)
            case None => None
            case Some(ok) => Some(if ok then Ok(UNIT) else Err(Internal("Wait failed in replay")))
  {
    HistorySays(h);
  }

  /** It is started once, by the first invocation that is not cut before, however often it is called. */
  lemma WaitStartsOnce(h: seq<WaitEvent>)
    ensures var log := After(h, false).log;
            if WasStarted(h) then |log| == 1 && log[0].Persist? && log[0].w.action == Start && log[0].w.kind == WaitKind
            else log == []
  {
    HistorySays(h);
  }

  /** A wait of zero returns at once, and neither writes nor looks at a record. */
  lemma {:induction false} ZeroWaitIsFree(h: seq<WaitEvent>, cut: nat)
    ensures After(h, true) == WaitState(None, [])
    ensures Returned(After(h, true), true, cut) == Some(Ok(UNIT))
  {
    if h != [] {
      ZeroWaitIsFree(h[..|h| - 1], cut);
    }
  }
}
