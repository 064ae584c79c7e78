# Debouncer — a verified Dafny model

This project models `Debouncer` from `Soenneker.Utils.Debounce`. The debouncer delays a
caller's asynchronous action until a quiet period has passed with no new call. A burst of
calls collapses into one trailing run of the most recent action. With `runLeading`, the
first call of a quiet period also runs at once.

The debouncer has three pieces of state: a one-slot pending-work cell (`_pendingTask`),
a running-task cell (`_runningTask`), and a one-shot re-armable timer. The model keeps
these as the fields of a Dafny class, `Debouncing.Debouncer`. It adds two pieces of the
environment: the set of cancelled token sources, and a log of every action started, in
order. The log stands for the tests' hit counters.

Each operation is one atomic step on a logical clock of natural numbers:

- `Debounce` swaps the new work into the pending slot. It may fire the leading edge. It
  then re-arms the timer.
- `Tick` takes the pending slot and clears it in one step. It runs the taken work unless
  the work's token is cancelled.
- `Execute` starts an action and records its task in the running slot.
- `Finish` is the tracked task ending, so `Execute`'s `finally` runs.
- `Cancel` cancels a token source.
- `DisposeAsync` disarms the timer, then waits for the tracked task.

Files:

- `wrappers.dfy` holds `Option`, which stands for the nullable slots.
- `debounce_spec.dfy` (module `DebounceSpec`) is the pure state machine, one function
  per event, with the invariant `Inv`.
- `debouncer.dfy` (module `Debouncing`) is the class. Each method is proved to perform
  exactly its function's step. Each public operation (`Debounce`, `DebounceSync`,
  `Tick`, `Finish`, `Cancel`, `DisposeAsync`) is also proved to keep `Inv`; the helpers
  `Change` and `Execute` are not.
- `traces.dfy` (module `DebounceTraces`) runs sequences of events. It proves last write
  wins, burst collapse, leading plus trailing, cancellation, quiet after disposal and
  the accepted overlap race.
- `scenarios.dfy` (module `DebounceScenarios`) replays the repository's unit tests
  against the class.

Modelling choices:

- `delayMs` is a .NET `int` (`Int32`). `Timer.Change` treats it as follows:
  - a value of 0 or more arms the timer at `now + delayMs`;
  - `Timeout.Infinite` (-1) disarms it;
  - anything lower throws `ArgumentOutOfRangeException` and leaves the timer as it was.

  `Debounce` reports that exception as `outOfRange`. The swap and any leading run have
  already happened by then.
- An execution (the task `_runningTask` refers to) is the work it runs plus its position
  in the log, so two runs of the same work are told apart.
- An action is a delegate id plus how its task stands when it is returned: still in
  flight, or already ended with an outcome. The synchronous overloads wrap their
  delegate into an action whose task has already completed. When such an action runs,
  the running slot is empty again before `Execute` returns.
- A token is the default token, which can never be cancelled, or a token from source `n`.
- Calling `Debounce` after `DisposeAsync` still swaps the pending slot and may start a
  leading run; only then does `_timer.Change` throw `ObjectDisposedException`. The model
  excludes such calls: `Debouncer.Debounce` requires `!disposed`, and in a trace such a
  call cannot happen. `DisposeAsync` may be called again.
- `DisposeAsync` never clears `_pendingTask`, and neither does the model. The pending
  work stays in the slot, but no tick can fire, so it never runs (`NoTickAfterDispose`).

## Model

| member | source | states |
|---|---|---|
| `DebounceSpec.Arm` | src/Debouncer.cs:34 | A due time of 0 or more arms the one-shot timer at `now + delay`. `Timeout.Infinite` disarms it. A lower due time leaves it unchanged. |
| `DebounceSpec.Start` | src/Debouncer.cs:71-84 | Starting work logs its action. The running slot then holds exactly the new execution (that work, at its log position) if its task is in flight, replacing whatever it held, and is empty if the task already ended. Pending work and timer are untouched. |
| `DebounceSpec.Rethrows` | src/Debouncer.cs:77-80 | In `Execute`, completion never escapes and a fault always does. A cancellation escapes exactly when the caller's own token is not cancelled. |
| `DebounceSpec.DisposeRethrows` | src/Debouncer.cs:97-100 | In disposal, only a fault of the awaited task escapes. Every cancellation is ignored. |
| `DebounceSpec.Submit` | src/Debouncer.cs:25-41 | The pending slot holds exactly the new work (last write wins). The timer is re-armed from `now` whether or not work was pending. The log grows iff the slot was empty, `leading` is set and nothing runs. It then grows by exactly the submitted action, and the running slot holds that new execution if its task is in flight and is empty otherwise. Otherwise log and running slot are unchanged. |
| `DebounceSpec.Fire` | src/Debouncer.cs:61-67 | After a tick the pending slot is empty and the timer disarmed. The log grows by one iff work was pending and its token is not cancelled, and then only by that work's action; the running slot then holds that new execution if its task is in flight and is empty otherwise. |
| `DebounceSpec.Complete` | src/Debouncer.cs:81-84 | When the tracked task ends, however it ends, the running slot is emptied and nothing else changes. |
| `DebounceSpec.CancelSource` | src/Debouncer.cs:65 | Cancelling a source makes its tokens cancelled and un-cancels nothing. It does not touch pending work, timer, running task or log. |
| `DebounceSpec.Dispose` | src/Debouncer.cs:87-102 | After disposal the debouncer is disposed, the timer is disarmed and no task is tracked. Pending work and log are unchanged. |
| `Debouncing.Debouncer.constructor` | src/Debouncer.cs:20-23 | A new debouncer is idle: timer disarmed, both slots empty, not disposed. |
| `Debouncing.Debouncer.Debounce` | src/Debouncer.cs:25-41 | The method's new state is `Submit` of the old one, so it keeps the invariant. It reports the out-of-range exception exactly for due times below `Timeout.Infinite`. |
| `Debouncing.Debouncer.DebounceSync` | src/Debouncer.cs:43-59 | Both synchronous overloads behave as `Debounce` with the same delay, `runLeading` and token, applied to an action whose task has already completed. |
| `Debouncing.Debouncer.Change` | src/Debouncer.cs:34 | The timer's new due time is `Arm` of the old one. |
| `Debouncing.Debouncer.Tick` | src/Debouncer.cs:61-67 | The method's new state is `Fire` of the old one. It returns the work it started, which is the work that was pending. It can only be called once the timer is due. |
| `Debouncing.Debouncer.Execute` | src/Debouncer.cs:69-85 | The method's new state is `Start` of the old one. |
| `Debouncing.Debouncer.Finish` | src/Debouncer.cs:73-84 | The tracked task ends and the running slot is cleared on every outcome. The outcome is rethrown exactly as `Rethrows` says, judged against the token the work was submitted with. |
| `Debouncing.Debouncer.Cancel` | src/Debouncer.cs:65 | The method's new state is `CancelSource` of the old one. |
| `Debouncing.Debouncer.DisposeAsync` | src/Debouncer.cs:87-102 | The method's new state is `Dispose` of the old one. It awaits exactly the execution that was tracked, and surfaces its outcome only if that task faulted. |
| `DebounceTraces.Step` | src/Debouncer.cs:25-102 | An event can happen exactly when it is enabled. Every enabled event keeps `Inv`: a disposed timer is disarmed, the timer is armed only while work is pending, and only an in-flight task is tracked. Events only append to the log. |
| `DebounceTraces.Run` | src/Debouncer.cs:25-102 | Every run from a valid state ends in a valid state, and the log only grows. |
| `DebounceTraces.ReachableStatesAreValid` | src/Debouncer.cs:20-23 | Every state reachable from a new debouncer satisfies `Inv`. |
| `DebounceTraces.BurstKeepsOnlyLast` | src/Debouncer.cs:27-40 | Take calls in time order, each made before the timer armed by the previous call is due. Afterwards only the last call's work is pending, with the timer armed from the last call. Only the first call's leading edge has run. At no time before each next call was the timer due. |
| `DebounceTraces.BurstThenQuietRunsLastOnce` | test/Soenneker.Utils.Debounce.Tests/DebouncerTests.cs:55-95 | Such a burst followed by a tick after the quiet period runs exactly one trailing execution, of the last call's action, unless its token is cancelled. This is on top of the first call's leading edge. No tick can happen inside the burst. |
| `DebounceTraces.DiscardedWorkNeverRuns` | src/Debouncer.cs:63-66 | An action that is not pending is never run by any later sequence of events that does not submit it again. |
| `DebounceTraces.LastWriteWins` | src/Debouncer.cs:27 | If A and then B are submitted (A without leading), A never runs afterwards, whatever follows, unless it is submitted again. |
| `DebounceTraces.CancelledTokenSuppressesRun` | src/Debouncer.cs:65 | Submit, cancel the work's token, then tick after the delay: nothing but the leading edge has run. |
| `DebounceTraces.DisposedStaysQuiet` | src/Debouncer.cs:89 | From a disposed state with a disarmed timer, no sequence of events starts an action or re-arms the timer. This relies on the model's exclusion of `Debounce` calls after disposal, which in the code could still start a leading run. |
| `DebounceTraces.NoTickAfterDispose` | src/Debouncer.cs:87-89 | After `DisposeAsync` the timer is due at no time. Nothing that follows runs an action, given that the model admits no `Debounce` call after disposal (in the code such a call could still start a leading run). |
| `DebounceTraces.TrailingMayOverlapLeading` | src/Debouncer.cs:29-32 | A leading run whose task is still in flight does not stop the trailing run. After the call the slot tracks the leading execution (log position 0); after the tick the action has run twice and the slot tracks the trailing execution (log position 1) instead, although the leading one has not ended. |
| `DebounceTraces.DisposeSwallowsMoreThanExecute` | src/Debouncer.cs:77-99 | What disposal surfaces, `Execute` rethrows too. They differ exactly on a cancellation while the caller's token is not cancelled. |
| `DebounceScenarios.ExecutesOnceAfterDelay` | test/Soenneker.Utils.Debounce.Tests/DebouncerTests.cs:32-52 | One call with a 100 ms delay is due at exactly 100 and runs once. |
| `DebounceScenarios.RapidCallsCollapse` | test/Soenneker.Utils.Debounce.Tests/DebouncerTests.cs:55-74 | Three calls 20 ms apart with a 100 ms delay: the timer is never due between calls, and the action runs once. |
| `DebounceScenarios.SyncRapidCallsCollapse` | test/Soenneker.Utils.Debounce.Tests/DebouncerTests.cs:77-95 | The same burst through the synchronous overload runs once. |
| `DebounceScenarios.RunLeadingInvokesImmediatelyAndAgain` | test/Soenneker.Utils.Debounce.Tests/DebouncerTests.cs:98-119 | With `runLeading` there is 1 run right after the call and 2 after the quiet period. |
| `DebounceScenarios.DisposeAwaitsInflightWork` | test/Soenneker.Utils.Debounce.Tests/DebouncerTests.cs:124-142 | Disposal awaits exactly the trailing task that is still in flight. When it returns, that task has ended and nothing was rethrown. |
| `DebounceScenarios.CanceledTokenPreventsExecution` | test/Soenneker.Utils.Debounce.Tests/DebouncerTests.cs:145-162 | A token cancelled before the delay elapses means the action never runs. |

## Left out

- Real concurrency is not modelled: the thread-pool timer callback and `Interlocked.Exchange` as a hardware primitive. Each exchange and each operation is one atomic step, so interleavings inside an operation are not covered.
- Wall-clock timing and the tests' jitter margins are not modelled. A logical natural-number clock replaces them, and a tick is an event allowed at any time at or after the due time.
- `Task`/`ValueTask` machinery and the `NoSync`/`Preserve` helpers are not modelled. An action is an id with its task's state, and an in-flight task ending is the explicit `Finish` event with its outcome as a parameter.
- Who observes a rethrown outcome is not modelled. `Execute`'s task is awaited only by `Tick`, whose own task is discarded, and the leading run is never awaited.
- Delegates that throw before returning a task are not modelled, and neither are synchronous delegates that throw. There the exception leaves `Execute` before `_runningTask` is assigned, and the model assumes the delegate returns.
- Debouncing.Debouncer.Finish: only the completion of the task the running slot tracks is an event. An execution whose slot entry was overwritten by a later one (the accepted leading/trailing overlap) still runs its `finally` when it ends, which can clear the newer entry; the model does not capture that untracked completion.
- Debouncing.Debouncer.DisposeAsync: the awaited task's end is modelled as also running `Execute`'s `finally`. The order of those two continuations on the same task is not modelled.
- Debouncing.Debouncer.Debounce: calls after disposal are excluded by `requires !disposed`. In the code such a call still replaces the pending work and, when the slot was empty, `runLeading` is set and no task is tracked, still starts the action on the leading edge; only then does `Timer.Change` throw `ObjectDisposedException`. The model does not capture that leading run or the exception.
- Both synchronous overloads are modelled by one method, `DebounceSync`, because whether the wrapped delegate receives the token is not observable in the model.
- src/Abstract/IDebouncer.cs is not part of this model. It declares the same three `Debounce` signatures and has no logic.
