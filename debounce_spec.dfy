/**
 * The debouncer as a pure state machine: one function per atomic event.
 *
 * Each function is the specification of one method of the `Debouncer` class
 * (module Debouncing); the lemmas about bursts, cancellation and disposal are
 * in module DebounceTraces.
 */
module DebounceSpec {
  import opened Wrappers

  /** The .NET `int` that `delayMs` is declared with. */
  newtype Int32 = x: int | -0x8000_0000 <= x < 0x8000_0000

  /** `Timeout.Infinite`: as a due time it disarms the timer. */
  const Infinite: Int32 := -1

  /** Identifies a caller-supplied delegate; the execution log records these. */
  type ActionId = nat

  /**
   * A `CancellationToken`. The default token can never be cancelled; a token
   * obtained from a source is cancelled once its source (its id) is.
   */
  datatype Token = NoToken | Source(id: nat)

  /** How the task an action hands back has ended by the time it is returned. */
  datatype Outcome = Completed | Canceled | Faulted
  datatype Returned = InFlight | AlreadyEnded(outcome: Outcome)

  /**
   * A `Func<CancellationToken, Task>`: which delegate it runs and whether the
   * task it returns is still in flight. A delegate that returns
   * `Task.CompletedTask` is `Action(id, AlreadyEnded(Completed))`.
   */
  datatype Action = Action(id: ActionId, returned: Returned)

  /** The `TaskWork` record: an action with the token it was submitted with. */
  datatype Work = Work(action: Action, token: Token)

  /**
   * One run of an action, the task `_runningTask` refers to: the work it runs
   * and its position in the log of started actions, which tells two runs of
   * the same work apart.
   */
  datatype Execution = Execution(work: Work, started: nat)

  /**
   * The debouncer's fields (`_pendingTask`, the timer's due time,
   * `_runningTask`, whether `DisposeAsync` was called) together with what the
   * environment contributes: the cancelled token sources and the log of every
   * action started, in order.
   */
  datatype State = State(
    pending: Option<Work>,
    deadline: Option<nat>,
    running: Option<Execution>,
    disposed: bool,
    cancelled: set<nat>,
    log: seq<ActionId>)

  /** A freshly constructed debouncer: timer disarmed, both slots empty. */
  const Idle: State := State(None, None, None, false, {}, [])

  predicate IsCancelled(t: Token, cancelled: set<nat>)
  {
    t.Source? && t.id in cancelled
  }

  /**
   * What every reachable state satisfies: a disposed timer is disarmed, the
   * timer is armed only while work is pending, and the running slot holds
   * only a task that is still in flight.
   */
  ghost predicate Inv(s: State)
  {
    && (s.disposed ==> s.deadline.None?)
    && (s.deadline.Some? ==> s.pending.Some?)
    && (s.running.Some? ==> s.running.value.work.action.returned.InFlight?)
  }

  /** `_timer.Change(delay, Timeout.Infinite)` at logical time `now`. */
  function Arm(deadline: Option<nat>, now: nat, delay: Int32): (r: Option<nat>)
    ensures delay >= 0 ==> r.Some? && r.value - now == delay as int
    ensures delay == Infinite ==> r.None?
    ensures delay < Infinite ==> r == deadline
  {
    if delay >= 0 then Some(now + delay as int)
    else if delay == Infinite then None
    else deadline  // Change throws before touching the timer
  }

  /** `Change` refuses a due time below `Timeout.Infinite`. */
  predicate OutOfRange(delay: Int32)
  {
    delay < Infinite
  }

  /**
   * The state effect of `Execute(action, token)`: the action is started (and
   * logged) and `_runningTask` records this new run, replacing whatever it
   * recorded before; when the returned task has already ended, the `finally`
   * has already emptied the slot.
   */
  function Start(s: State, w: Work): (r: State)
    ensures r.log == s.log + [w.action.id]
    ensures r.running.Some? <==> w.action.returned.InFlight?
    ensures r.running.Some? ==> r.running.value.started == |s.log|
    ensures r.running.Some? ==> r.running.value.work == w && r.log[r.running.value.started] == w.action.id
    ensures r.pending == s.pending && r.deadline == s.deadline
    ensures r.disposed == s.disposed && r.cancelled == s.cancelled
  {
    var started := s.(log := s.log + [w.action.id], running := Some(Execution(w, |s.log|)));
    if w.action.returned.InFlight? then started else started.(running := None)
  }

  /**
   * Whether `Execute` lets the awaited task's outcome escape: a fault always
   * does; a cancellation is swallowed only when the caller's own token is
   * cancelled.
   */
  function Rethrows(o: Outcome, ownTokenCancelled: bool): (r: bool)
    ensures o == Completed ==> !r
    ensures o == Faulted ==> r
    ensures o == Canceled ==> (r <==> !ownTokenCancelled)
  {
    var thrown := o != Completed;
    var caught := o == Canceled && ownTokenCancelled;  // the catch filter tests the caller's token
    thrown && !caught
  }

  /** Whether `DisposeAsync` lets the awaited task's outcome escape: every cancellation is ignored. */
  function DisposeRethrows(o: Outcome): (r: bool)
    ensures r <==> o == Faulted
  {
    var thrown := o != Completed;
    var caught := o == Canceled;  // caught whatever the token
    thrown && !caught
  }

  /** The leading-edge condition of `Debounce`. */
  predicate FiresLeading(s: State, leading: bool)
  {
    s.pending.None? && leading && s.running.None?
  }

  /**
   * `Debounce(delay, action, leading, token)` at logical time `now`: swap the
   * work into the pending slot, fire the leading edge when the slot was empty,
   * `leading` is set and nothing runs, then re-arm the timer.
   */
  function Submit(s: State, now: nat, delay: Int32, w: Work, leading: bool): (r: State)
    requires !s.disposed
    ensures r.pending == Some(w)
    ensures delay >= 0 ==> r.deadline == Some(now + delay as int)
    ensures delay == Infinite ==> r.deadline.None?
    ensures OutOfRange(delay) ==> r.deadline == s.deadline
    ensures |r.log| > |s.log| <==> FiresLeading(s, leading)
    ensures |r.log| > |s.log| ==> r.log == s.log + [w.action.id]
    ensures |r.log| > |s.log| ==> r.running == (if w.action.returned.InFlight? then Some(Execution(w, |s.log|)) else None)
    ensures |r.log| <= |s.log| ==> r.log == s.log && r.running == s.running
    ensures !r.disposed && r.cancelled == s.cancelled
  {
    var swapped := s.(pending := Some(w));
    var fired := if FiresLeading(s, leading) then Start(swapped, w) else swapped;
    fired.(deadline := Arm(s.deadline, now, delay))
  }

  /**
   * A timer tick: the one-shot timer is spent, the pending slot is taken and
   * emptied in one step, and the taken work runs unless its token is cancelled.
   */
  function Fire(s: State): (r: State)
    ensures r.pending.None? && r.deadline.None?
    ensures |r.log| == |s.log| + 1 <==> (s.pending.Some? && !IsCancelled(s.pending.value.token, s.cancelled))
    ensures r.log == s.log || (s.pending.Some? && r.log == s.log + [s.pending.value.action.id])
    ensures r.log != s.log ==> r.running == (if s.pending.value.action.returned.InFlight? then Some(Execution(s.pending.value, |s.log|)) else None)
    ensures r.log == s.log ==> r.running == s.running
    ensures r.disposed == s.disposed && r.cancelled == s.cancelled
  {
    var taken := s.pending;
    var cleared := s.(pending := None, deadline := None);
    if taken.Some? && !IsCancelled(taken.value.token, s.cancelled) then Start(cleared, taken.value)
    else cleared
  }

  /** The tracked in-flight task ends, however it ends: `Execute`'s `finally` empties the slot. */
  function Complete(s: State): (r: State)
    requires s.running.Some?
    ensures r.running.None?
    ensures r.pending == s.pending && r.deadline == s.deadline && r.log == s.log
    ensures r.disposed == s.disposed && r.cancelled == s.cancelled
  {
    s.(running := None)
  }

  /** A token source is cancelled; nothing already started is affected. */
  function CancelSource(s: State, id: nat): (r: State)
    ensures IsCancelled(Source(id), r.cancelled)
    ensures forall t :: IsCancelled(t, s.cancelled) ==> IsCancelled(t, r.cancelled)
    ensures r.cancelled - s.cancelled <= {id}
    ensures r.pending == s.pending && r.deadline == s.deadline && r.running == s.running
    ensures r.log == s.log && r.disposed == s.disposed
  {
    s.(cancelled := s.cancelled + {id})
  }

  /**
   * `DisposeAsync`: the timer is disposed first, then the recorded running
   * task (if any) is awaited until it ends. The pending slot is not touched.
   */
  function Dispose(s: State): (r: State)
    ensures r.disposed && r.deadline.None? && r.running.None?
    ensures r.pending == s.pending && r.log == s.log && r.cancelled == s.cancelled
  {
    var disarmed := s.(deadline := None, disposed := true);
    if disarmed.running.Some? then Complete(disarmed) else disarmed
  }
}
