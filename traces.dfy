/**
 * Runs of the debouncer: sequences of atomic events on a logical clock, and
 * the properties the debouncer promises about them.
 */
module DebounceTraces {
  import opened Wrappers
  import opened DebounceSpec

  /** One `Debounce` call at logical time `now`. */
  datatype Call = Call(now: nat, delay: Int32, work: Work, leading: bool)

  datatype Event =
    | Submitted(call: Call)      // a caller invokes Debounce
    | TokenCancelled(id: nat)    // the environment cancels a token source
    | TimerFired(now: nat)       // the timer callback runs at time now
    | TaskEnded                  // the tracked in-flight task ends
    | Disposed                   // a caller invokes DisposeAsync

  /** The timer is armed and due at `now`. */
  predicate TimerDue(s: State, now: nat)
  {
    s.deadline.Some? && s.deadline.value <= now
  }

  /**
   * Which events can happen: no submission after disposal, no tick unless the
   * timer is due, no task end unless a task is tracked.
   */
  predicate Enabled(s: State, e: Event)
  {
    match e
    case Submitted(_) => !s.disposed
    case TimerFired(now) => TimerDue(s, now)
    case TaskEnded => s.running.Some?
    case _ => true
  }

  /** One event; `None` when it cannot happen in `s`. */
  function Step(s: State, e: Event): (r: Option<State>)
    ensures r.Some? <==> Enabled(s, e)
    ensures r.Some? && Inv(s) ==> Inv(r.value)
    ensures r.Some? ==> s.log <= r.value.log
  {
    match e
    case Submitted(c) =>
      if s.disposed then None else Some(Submit(s, c.now, c.delay, c.work, c.leading))
    case TokenCancelled(id) => Some(CancelSource(s, id))
    case TimerFired(now) => if TimerDue(s, now) then Some(Fire(s)) else None
    case TaskEnded => if s.running.Some? then Some(Complete(s)) else None
    case Disposed => Some(Dispose(s))
  }

  /** A whole run; `None` when some event in it cannot happen. */
  function Run(s: State, es: seq<Event>): (r: Option<State>)
    ensures r.Some? && Inv(s) ==> Inv(r.value)
    ensures r.Some? ==> s.log <= r.value.log
    decreases |es|
  {
    if es == [] then Some(s)
    else match Step(s, es[0])
      case None => None
      case Some(next) => Run(next, es[1..])
  }

  lemma {:induction false} RunAppend(s: State, a: seq<Event>, b: seq<Event>)
    ensures Run(s, a + b) == (if Run(s, a).Some? then Run(Run(s, a).value, b) else None)
    decreases |a|
  {
    if a == [] {
      assert a + b == b;
    } else {
      assert (a + b)[0] == a[0];
      assert (a + b)[1..] == a[1..] + b;
      if Step(s, a[0]).Some? {
        RunAppend(Step(s, a[0]).value, a[1..], b);
      }
    }
  }

  /** Every state reachable from a new debouncer satisfies the invariant. */
  lemma ReachableStatesAreValid(es: seq<Event>)
    ensures Run(Idle, es).Some? ==> Inv(Run(Idle, es).value)
  {
  }

  /* ---------- bursts ---------- */

  function Last(calls: seq<Call>): Call
    requires |calls| > 0
  {
    calls[|calls| - 1]
  }

  function Calls(calls: seq<Call>): (es: seq<Event>)
    ensures |es| == |calls|
    ensures forall i :: 0 <= i < |calls| ==> es[i] == Submitted(calls[i])
  {
    seq(|calls|, i requires 0 <= i < |calls| => Submitted(calls[i]))
  }

  /** The calls of a burst, applied one after another. */
  function SubmitAll(s: State, calls: seq<Call>): (r: State)
    requires !s.disposed
    ensures !r.disposed && r.cancelled == s.cancelled
    decreases |calls|
  {
    if calls == [] then s
    else
      var c := Last(calls);
      Submit(SubmitAll(s, calls[..|calls| - 1]), c.now, c.delay, c.work, c.leading)
  }

  lemma {:induction false} RunCalls(s: State, calls: seq<Call>)
    requires !s.disposed
    ensures Run(s, Calls(calls)) == Some(SubmitAll(s, calls))
    decreases |calls|
  {
    if calls != [] {
      var front := calls[..|calls| - 1];
      assert Calls(calls) == Calls(front) + [Submitted(Last(calls))];
      RunAppend(s, Calls(front), [Submitted(Last(calls))]);
      RunCalls(s, front);
    }
  }

  /** Calls in time order, each before the timer armed by the previous one is due. */
  predicate Spaced(calls: seq<Call>)
  {
    forall i :: 0 < i < |calls| ==> calls[i - 1].now <= calls[i].now < calls[i - 1].now + calls[i - 1].delay as int
  }

  /** What the leading edge of the first call of a burst runs. */
  function LeadingRun(s: State, first: Call): seq<ActionId>
  {
    if FiresLeading(s, first.leading) then [first.work.action.id] else []
  }

  /** What the trailing edge runs: the last call's action, unless its token is cancelled. */
  function TrailingRun(cancelled: set<nat>, last: Call): seq<ActionId>
  {
    if IsCancelled(last.work.token, cancelled) then [] else [last.work.action.id]
  }

  /**
   * A burst leaves exactly the last call's work pending with the timer armed
   * from the last call, runs nothing but the first call's leading edge, and
   * gives the timer no chance to fire before each next call.
   */
  lemma {:induction false} BurstKeepsOnlyLast(s: State, calls: seq<Call>)
    requires !s.disposed && |calls| > 0 && Spaced(calls)
    ensures SubmitAll(s, calls).pending == Some(Last(calls).work)
    ensures Last(calls).delay >= 0 ==> SubmitAll(s, calls).deadline == Some(Last(calls).now + Last(calls).delay as int)
    ensures SubmitAll(s, calls).log == s.log + LeadingRun(s, calls[0])
    ensures forall i, t: nat :: 0 < i < |calls| && t <= calls[i].now ==> !TimerDue(SubmitAll(s, calls[..i]), t)
    decreases |calls|
  {
    var front := calls[..|calls| - 1];
    if |calls| > 1 {
      assert Spaced(front) by {
        forall i | 0 < i < |front|
          ensures front[i - 1].now <= front[i].now < front[i - 1].now + front[i - 1].delay as int
        {
          assert front[i] == calls[i] && front[i - 1] == calls[i - 1];
        }
      }
      BurstKeepsOnlyLast(s, front);
      assert front[0] == calls[0];
      forall i, t: nat | 0 < i < |calls| && t <= calls[i].now
        ensures !TimerDue(SubmitAll(s, calls[..i]), t)
      {
        if i < |front| {
          assert calls[..i] == front[..i];
        } else {
          assert calls[..i] == front;
          assert Last(front) == calls[i - 1];
        }
      }
    }
  }

  /**
   * A burst followed by quiet yields exactly one trailing execution, of the
   * last call's action, on top of the first call's leading edge (if any); no
   * tick can interrupt the burst.
   */
  lemma BurstThenQuietRunsLastOnce(s: State, calls: seq<Call>, t: nat)
    requires !s.disposed && |calls| > 0 && Spaced(calls)
    requires Last(calls).delay >= 0 && t >= Last(calls).now + Last(calls).delay as int
    ensures Run(s, Calls(calls) + [TimerFired(t)]).Some?
    ensures Run(s, Calls(calls) + [TimerFired(t)]).value.log
         == s.log + LeadingRun(s, calls[0]) + TrailingRun(s.cancelled, Last(calls))
    ensures Run(s, Calls(calls) + [TimerFired(t)]).value.pending.None?
    ensures forall i, t': nat :: 0 < i < |calls| && t' <= calls[i].now ==> Run(s, Calls(calls[..i]) + [TimerFired(t')]).None?
  {
    BurstKeepsOnlyLast(s, calls);
    RunCalls(s, calls);
    RunAppend(s, Calls(calls), [TimerFired(t)]);
    forall i, t': nat | 0 < i < |calls| && t' <= calls[i].now
      ensures Run(s, Calls(calls[..i]) + [TimerFired(t')]).None?
    {
      RunCalls(s, calls[..i]);
      RunAppend(s, Calls(calls[..i]), [TimerFired(t')]);
    }
  }

  /* ---------- last write wins ---------- */

  /** No call in `es` submits the delegate `a`. */
  predicate NeverSubmits(es: seq<Event>, a: ActionId)
  {
    forall i :: 0 <= i < |es| && es[i].Submitted? ==> es[i].call.work.action.id != a
  }

  /**
   * Work that is not pending cannot be run by anything that happens later,
   * unless it is submitted again.
   */
  lemma {:induction false} DiscardedWorkNeverRuns(s: State, es: seq<Event>, a: ActionId)
    requires s.pending.Some? ==> s.pending.value.action.id != a
    requires NeverSubmits(es, a)
    ensures Run(s, es).Some? ==> a !in Run(s, es).value.log[|s.log|..]
    decreases |es|
  {
    if es != [] && Step(s, es[0]).Some? {
      var next := Step(s, es[0]).value;
      assert a !in next.log[|s.log|..];
      DiscardedWorkNeverRuns(next, es[1..], a);
      if Run(s, es).Some? {
        var r := Run(s, es).value;
        assert r.log[|s.log|..] == next.log[|s.log|..] + r.log[|next.log|..];
      }
    }
  }

  /**
   * Submitting A and then B before the timer fires: A never runs (unless it
   * fired on its own leading edge or is submitted again), whatever follows.
   */
  lemma LastWriteWins(s: State, first: Call, second: Call, es: seq<Event>)
    requires !s.disposed && !first.leading
    requires second.work.action.id != first.work.action.id
    requires NeverSubmits(es, first.work.action.id)
    ensures Run(s, [Submitted(first), Submitted(second)] + es).Some? ==>
      first.work.action.id !in Run(s, [Submitted(first), Submitted(second)] + es).value.log[|s.log|..]
  {
    var a := first.work.action.id;
    RunAppend(s, [Submitted(first), Submitted(second)], es);
    var s1 := Submit(s, first.now, first.delay, first.work, false);
    var mid := Submit(s1, second.now, second.delay, second.work, second.leading);
    assert Run(s1, [Submitted(second)]) == Run(mid, []);
    assert Run(s, [Submitted(first), Submitted(second)]) == Run(s1, [Submitted(second)]);
    assert a !in mid.log[|s.log|..];
    DiscardedWorkNeverRuns(mid, es, a);
    if Run(mid, es).Some? {
      var r := Run(mid, es).value;
      assert r.log[|s.log|..] == mid.log[|s.log|..] + r.log[|mid.log|..];
    }
  }

  /* ---------- cancellation ---------- */

  /**
   * A token cancelled before the quiet period ends suppresses the trailing
   * run: only the leading edge, if it fired, has run.
   */
  lemma CancelledTokenSuppressesRun(s: State, c: Call, id: nat, t: nat)
    requires !s.disposed && c.work.token == Source(id)
    requires c.delay >= 0 && t >= c.now + c.delay as int
    ensures Run(s, [Submitted(c), TokenCancelled(id), TimerFired(t)]).Some?
    ensures Run(s, [Submitted(c), TokenCancelled(id), TimerFired(t)]).value.log == s.log + LeadingRun(s, c)
  {
    var s1 := Submit(s, c.now, c.delay, c.work, c.leading);
    var s2 := CancelSource(s1, id);
    assert Step(s2, TimerFired(t)) == Some(Fire(s2));
    assert Run(s2, [TimerFired(t)]) == Run(Fire(s2), []);
  }

  /* ---------- disposal ---------- */

  /** Once disposed, no tick can fire and no action ever starts again. */
  lemma {:induction false} DisposedStaysQuiet(s: State, es: seq<Event>)
    requires s.disposed && s.deadline.None?
    ensures Run(s, es).Some? ==> Run(s, es).value.log == s.log && Run(s, es).value.deadline.None?
    decreases |es|
  {
    if es != [] && Step(s, es[0]).Some? {
      assert !es[0].TimerFired?;
      DisposedStaysQuiet(Step(s, es[0]).value, es[1..]);
    }
  }

  /**
   * `DisposeAsync` disarms the timer before anything else: no tick fires at
   * any later time, and nothing that happens afterwards runs an action.
   */
  lemma NoTickAfterDispose(s: State, es: seq<Event>)
    ensures forall t :: !TimerDue(Dispose(s), t)
    ensures Run(Dispose(s), es).Some? ==> Run(Dispose(s), es).value.log == s.log
  {
    DisposedStaysQuiet(Dispose(s), es);
  }

  /* ---------- the accepted overlap ---------- */

  /**
   * The running slot does not stop a trailing execution: with the leading
   * run (log position 0) still in flight, the tick starts the same action
   * again, and the slot now tracks the trailing run (log position 1) instead
   * of the leading one, which has not ended.
   */
  lemma TrailingMayOverlapLeading(w: Work, delay: Int32)
    requires w.action.returned.InFlight? && w.token == NoToken && delay >= 0
    ensures Run(Idle, [Submitted(Call(0, delay, w, true))]).Some?
    ensures Run(Idle, [Submitted(Call(0, delay, w, true))]).value.running == Some(Execution(w, 0))
    ensures Run(Idle, [Submitted(Call(0, delay, w, true)), TimerFired(delay as nat)]).Some?
    ensures Run(Idle, [Submitted(Call(0, delay, w, true)), TimerFired(delay as nat)]).value.log
         == [w.action.id, w.action.id]
    ensures Run(Idle, [Submitted(Call(0, delay, w, true)), TimerFired(delay as nat)]).value.running
         == Some(Execution(w, 1))
  {
    var s1 := Submit(Idle, 0, delay, w, true);
    assert s1.running == Some(Execution(w, 0)) && s1.deadline == Some(delay as nat);
    assert Run(s1, []) == Some(s1);
    assert Run(s1, [TimerFired(delay as nat)]) == Run(Fire(s1), []);
  }

  /* ---------- outcomes ---------- */

  /**
   * Disposal swallows everything `Execute` swallows and more: a cancellation
   * that `Execute` rethrows because the caller's token was not cancelled is
   * ignored by `DisposeAsync`.
   */
  lemma DisposeSwallowsMoreThanExecute(o: Outcome, ownTokenCancelled: bool)
    ensures DisposeRethrows(o) ==> Rethrows(o, ownTokenCancelled)
    ensures Rethrows(o, ownTokenCancelled) && !DisposeRethrows(o) <==> o == Canceled && !ownTokenCancelled
  {
  }
}
