/**
 * The repository's unit tests, replayed against the `Debouncer` class on a
 * logical millisecond clock. Each method's postcondition is what the test
 * asserts, derived from the class's contracts and the step functions they name.
 */
module DebounceScenarios {
  import opened Wrappers
  import opened DebounceSpec
  import opened Debouncing

  /** A delegate that returns `Task.CompletedTask`, as most of the tests use. */
  function Instant(id: ActionId): Action
  {
    Action(id, AlreadyEnded(Completed))
  }

  /** One call, no further calls: the action runs once, exactly `delayMs` later. */
  method ExecutesOnceAfterDelay() returns (dueAt: nat, hits: nat)
    ensures dueAt == 100 && hits == 1
  {
    var d := new Debouncer();
    var _ := d.Debounce(0, 100, Instant(1), false, Source(0));
    dueAt := d.deadline.value;
    var _ := d.Tick(100);
    hits := |d.log|;
  }

  /** Three calls 20 ms apart with a 100 ms quiet period collapse into one run. */
  method RapidCallsCollapse() returns (hits: nat, tickedEarly: bool)
    ensures hits == 1 && !tickedEarly
  {
    var d := new Debouncer();
    var _ := d.Debounce(0, 100, Instant(1), false, NoToken);
    tickedEarly := d.deadline.value <= 20;
    var _ := d.Debounce(20, 100, Instant(1), false, NoToken);
    tickedEarly := tickedEarly || d.deadline.value <= 40;
    var _ := d.Debounce(40, 100, Instant(1), false, NoToken);
    var _ := d.Tick(40 + 150 + 25);
    hits := |d.log|;
  }

  /** The same burst through the synchronous overload. */
  method SyncRapidCallsCollapse() returns (hits: nat, tickedEarly: bool)
    ensures hits == 1 && !tickedEarly
  {
    var d := new Debouncer();
    var _ := d.DebounceSync(0, 100, 1, false, NoToken);
    tickedEarly := d.deadline.value <= 20;
    var _ := d.DebounceSync(20, 100, 1, false, NoToken);
    tickedEarly := tickedEarly || d.deadline.value <= 40;
    var _ := d.DebounceSync(40, 100, 1, false, NoToken);
    var _ := d.Tick(40 + 150 + 25);
    hits := |d.log|;
  }

  /** With `runLeading` one call runs at once and again after the quiet period. */
  method RunLeadingInvokesImmediatelyAndAgain() returns (leadingHits: nat, trailingHits: nat)
    ensures leadingHits == 1 && trailingHits == 2
  {
    var d := new Debouncer();
    var _ := d.Debounce(0, 100, Instant(1), true, Source(0));
    leadingHits := |d.log|;
    var _ := d.Tick(125 + 25);
    trailingHits := |d.log|;
  }

  /**
   * An action still in flight when the debouncer is disposed is awaited:
   * disposal returns only after that task has ended, and it ended normally.
   */
  method DisposeAwaitsInflightWork() returns (awaited: Option<Execution>, rethrown: bool, stillRunning: bool)
    ensures awaited == Some(Execution(Work(Action(1, InFlight), Source(0)), 0))
    ensures !rethrown && !stillRunning
  {
    var d := new Debouncer();
    var _ := d.Debounce(0, 10, Action(1, InFlight), false, Source(0));
    var _ := d.Tick(10);
    awaited, rethrown := d.DisposeAsync(Completed);
    stillRunning := d.running.Some?;
  }

  /** A token cancelled before the delay elapses keeps the action from running. */
  method CanceledTokenPreventsExecution() returns (ran: bool)
    ensures !ran
  {
    var d := new Debouncer();
    var _ := d.Debounce(0, 50, Instant(1), false, Source(7));
    d.Cancel(7);
    var started := d.Tick(75 + 25);
    ran := started.Some? || |d.log| > 0;
  }
}
