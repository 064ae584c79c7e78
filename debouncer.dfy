/**
 * The `Debouncer` class: the same fields the C# class mutates, one method per
 * operation, each proved to perform exactly the step of module DebounceSpec.
 */
module Debouncing {
  import opened Wrappers
  import opened DebounceSpec

  class Debouncer {
    /** `_pendingTask`: the most recently submitted work, not yet taken by a tick. */
    var pending: Option<Work>
    /** The one-shot `_timer`: the logical time it is due at, or `None` when disarmed. */
    var deadline: Option<nat>
    /** `_runningTask`: the one execution the debouncer tracks. */
    var running: Option<Execution>
    /** Whether `DisposeAsync` has disposed the timer. */
    var disposed: bool
    /** The token sources the environment has cancelled. */
    var cancelled: set<nat>
    /** The environment's record of every action started, in order. */
    var log: seq<ActionId>

    function Abstract(): State
      reads this
    {
      State(pending, deadline, running, disposed, cancelled, log)
    }

    ghost predicate Valid()
      reads this
    {
      Inv(Abstract())
    }

    /** `new Debouncer()`: the timer is created disarmed. */
    constructor ()
      ensures Valid() && Abstract() == Idle
    {
      pending, deadline, running := None, None, None;
      disposed, cancelled, log := false, {}, [];
    }

    /**
     * `Debounce(int, Func<CancellationToken, Task>, bool, CancellationToken)`.
     * `outOfRange` stands for the `ArgumentOutOfRangeException` that
     * `_timer.Change` throws; the swap and the leading run have happened by then.
     */
    method Debounce(now: nat, delay: Int32, action: Action, runLeading: bool, token: Token)
      returns (outOfRange: bool)
      requires Valid() && !disposed
      modifies this
      ensures Valid()
      ensures Abstract() == Submit(old(Abstract()), now, delay, Work(action, token), runLeading)
      ensures outOfRange <==> OutOfRange(delay)
    {
      var previous := pending;
      pending := Some(Work(action, token));
      if previous.None? {
        if runLeading && running.None? {
          Execute(Work(action, token));  // leading edge, not awaited
        }
        outOfRange := Change(now, delay);
      } else {
        outOfRange := Change(now, delay);
      }
    }

    /**
     * The two synchronous overloads, `Debounce(int, Action<CancellationToken>, …)`
     * and `Debounce(int, Action, …)`: the delegate is wrapped into an action that
     * runs it and returns an already completed task.
     */
    method DebounceSync(now: nat, delay: Int32, id: ActionId, runLeading: bool, token: Token)
      returns (outOfRange: bool)
      requires Valid() && !disposed
      modifies this
      ensures Valid()
      ensures Abstract() == Submit(old(Abstract()), now, delay, Work(Action(id, AlreadyEnded(Completed)), token), runLeading)
      ensures outOfRange <==> OutOfRange(delay)
    {
      outOfRange := Debounce(now, delay, Action(id, AlreadyEnded(Completed)), runLeading, token);
    }

    /** `_timer.Change(delay, Timeout.Infinite)`: re-arm as a one-shot. */
    method Change(now: nat, delay: Int32) returns (outOfRange: bool)
      modifies this`deadline
      ensures deadline == Arm(old(deadline), now, delay)
      ensures outOfRange <==> OutOfRange(delay)
    {
      outOfRange := delay < Infinite;
      if delay >= 0 {
        deadline := Some(now + delay as int);
      } else if delay == Infinite {
        deadline := None;
      }
    }

    /**
     * The timer callback: take and clear the pending slot in one step and run
     * the taken work unless its token is cancelled. `started` is the work run.
     */
    method Tick(now: nat) returns (started: Option<Work>)
      requires Valid() && deadline.Some? && deadline.value <= now
      modifies this
      ensures Valid()
      ensures Abstract() == Fire(old(Abstract()))
      ensures started.Some? <==> |log| == |old(log)| + 1
      ensures started.Some? ==> started == old(pending)
    {
      deadline := None;  // a one-shot timer fires once
      var taskToRun := pending;
      pending := None;
      started := None;
      if taskToRun.Some? && !IsCancelled(taskToRun.value.token, cancelled) {
        Execute(taskToRun.value);
        started := taskToRun;
      }
    }

    /**
     * `Execute(action, outerCt)` up to its first real wait: the action is
     * invoked and its task recorded in `_runningTask`; a task that has already
     * ended goes through the catch and the `finally` at once.
     */
    method Execute(w: Work)
      modifies this`log, this`running
      ensures Abstract() == Start(old(Abstract()), w)
    {
      log := log + [w.action.id];
      running := Some(Execution(w, |log| - 1));
      if !w.action.returned.InFlight? {
        running := None;  // finally
      }
    }

    /**
     * The tracked in-flight task ends with `outcome`; `Execute` resumes, and
     * `rethrown` says whether the outcome escapes its catch filter.
     */
    method Finish(outcome: Outcome) returns (rethrown: bool)
      requires Valid() && running.Some?
      modifies this`running
      ensures Valid()
      ensures Abstract() == Complete(old(Abstract()))
      ensures rethrown == Rethrows(outcome, IsCancelled(old(running).value.work.token, cancelled))
    {
      rethrown := match outcome
        case Completed => false
        case Canceled => !IsCancelled(running.value.work.token, cancelled)
        case Faulted => true;
      running := None;  // finally
    }

    /** The environment cancels the token source `id`. */
    method Cancel(id: nat)
      requires Valid()
      modifies this`cancelled
      ensures Valid()
      ensures Abstract() == CancelSource(old(Abstract()), id)
    {
      cancelled := cancelled + {id};
    }

    /**
     * `DisposeAsync`: dispose the timer, then await the recorded running task,
     * which ends with `outcome`. `awaited` is the execution waited for; `rethrown`
     * says whether its outcome escapes.
     */
    method DisposeAsync(outcome: Outcome) returns (awaited: Option<Execution>, rethrown: bool)
      requires Valid()
      modifies this
      ensures Valid()
      ensures Abstract() == Dispose(old(Abstract()))
      ensures awaited == old(running)
      ensures rethrown <==> awaited.Some? && DisposeRethrows(outcome)
    {
      deadline := None;
      disposed := true;
      awaited := running;
      rethrown := false;
      if running.Some? {
        rethrown := outcome == Faulted;  // every OperationCanceledException is ignored
        running := None;  // the awaited task has ended, and so has its Execute
      }
    }
  }
}
