// ManualPcStatisticsValueTaskSource as a state machine: each public method,
// the timer callback and the cancellation of the token is one atomic step on
// the source's fields. The source is reusable: a successful or failed
// GetResult resets it and moves it to the next version.

module PcStatisticsSources {
  import opened Wrappers
  import opened ValueTaskSources
  import opened MeasurementCache

  /** The cancellation token a source holds: the default token, which can
      never be cancelled, or one whose owner may cancel it. */
  datatype CancelToken = NoToken | Token(requested: bool)

  predicate IsCancellationRequested(t: CancelToken) {
    t.Token? && t.requested
  }

  /** The source's one-shot timer. */
  datatype SourceTimer = Disarmed | Armed(dueTime: int)

  /** What Start hands back: a ValueTask that already holds a statistic, or
      one bound to this source and a version. */
  datatype Started = Completed(value: int) | Bound(version: Int16)

  /** The source's fields. The cached result 0 is the default PcStatistics,
      "no result yet". hasMonitor says whether _monitor is set; the monitor
      itself is an argument of the steps that read it. completions counts the
      completions delivered in the current version; it is bookkeeping of this
      model, cleared with the version. */
  datatype SourceState = SourceState(core: Core, version: Int16, cachedResult: int, exception: Option<Exception>,
                                     token: CancelToken, hasMonitor: bool, lastMeasurementTime: int,
                                     timer: SourceTimer, completions: nat)

  /** What a call leaves behind and what it returns or throws. */
  datatype Answer<T> = Answer(next: SourceState, result: Result<T, Exception>)

  /** A newly constructed source. */
  function Init(): (s: SourceState)
    ensures s.core.slot.Empty? && s.core.dispatched == [] && s.version == 0 && s.cachedResult == 0
    ensures !s.hasMonitor && s.timer.Disarmed? && s.completions == 0
  {
    SourceState(Core(Empty, None, NoScheduler, None, []), 0, 0, None, NoToken, false, 0, Disarmed, 0)
  }

  /** GetResult's local Reset: the next version, no result, no exception, no
      state object, an empty slot and the default token. The captured
      scheduler and execution context, the monitor and the saved measurement
      time are kept. */
  function Reset(s: SourceState): (r: SourceState)
    ensures r.version == Increment(s.version) && r.version != s.version
    ensures r.cachedResult == 0 && r.exception.None? && r.token == NoToken && r.completions == 0
    ensures r.core == s.core.(slot := Empty, state := None)
    ensures r.hasMonitor == s.hasMonitor && r.lastMeasurementTime == s.lastMeasurementTime && r.timer == s.timer
  {
    s.(version := Increment(s.version), cachedResult := 0, exception := None, token := NoToken, completions := 0,
       core := s.core.(slot := Empty, state := None))
  }

  /** GetResult: a stale token is refused and changes nothing; then a stored
      exception is thrown, then a requested cancellation; without a result the
      call fails and changes nothing; otherwise the result is returned. Every
      outcome but the two that change nothing resets the source. */
  function GetResult(s: SourceState, token: Int16): (r: Answer<int>)
    ensures token != s.version ==> r == Answer(s, Err(InvalidOperation(MultipleAwaiting)))
    ensures token == s.version && s.exception.Some? ==> r == Answer(Reset(s), Err(s.exception.value))
    ensures token == s.version && s.exception.None? && IsCancellationRequested(s.token) ==>
              r == Answer(Reset(s), Err(OperationCanceled))
    ensures r.result.Ok? ==> r.result.value == s.cachedResult != 0 && r.next == Reset(s)
    ensures r == Answer(s, Err(InvalidOperation(NotYetComplete))) <==>
              token == s.version && s.exception.None? && !IsCancellationRequested(s.token) && s.cachedResult == 0
    ensures r.next == s || r.next == Reset(s)
  {
    if token != s.version then Answer(s, Err(InvalidOperation(MultipleAwaiting)))
    else if s.exception.Some? then Answer(Reset(s), Err(s.exception.value))
    else if IsCancellationRequested(s.token) then Answer(Reset(s), Err(OperationCanceled))
    else if s.cachedResult == 0 then Answer(s, Err(InvalidOperation(NotYetComplete)))
    else Answer(Reset(s), Ok(s.cachedResult))
  }

  /** GetStatus: a stale token is refused; then a requested cancellation wins
      over a stored exception, which wins over a result. */
  function GetStatus(s: SourceState, token: Int16): (r: Result<Status, Exception>)
    ensures r.Err? <==> token != s.version
    ensures r.Err? ==> r.error == InvalidOperation(MultipleAwaiting)
    ensures r == Ok(Canceled) <==> token == s.version && IsCancellationRequested(s.token)
    ensures r == Ok(Faulted) <==> token == s.version && !IsCancellationRequested(s.token) && s.exception.Some?
    ensures r == Ok(Succeeded) <==>
              token == s.version && !IsCancellationRequested(s.token) && s.exception.None? && s.cachedResult != 0
    ensures r == Ok(Pending) <==>
              token == s.version && !IsCancellationRequested(s.token) && s.exception.None? && s.cachedResult == 0
  {
    if token != s.version then Err(InvalidOperation(MultipleAwaiting))
    else if IsCancellationRequested(s.token) then Ok(Canceled)
    else if s.exception.Some? then Ok(Faulted)
    else if s.cachedResult != 0 then Ok(Succeeded)
    else Ok(Pending)
  }

  /** OnCompleted: a stale token is refused and changes nothing; otherwise the
      registration of the completion protocol, which refuses a second
      awaiter. */
  function OnCompleted(s: SourceState, continuation: Continuation, state: Option<StateObject>, token: Int16,
                       flags: Flags, captured: Option<ExecContext>, current: Scheduler): (r: Answer<()>)
    ensures token != s.version ==> r == Answer(s, Err(InvalidOperation(MultipleAwaiting)))
    ensures token == s.version ==> r.next == s.(core := Register(s.core, continuation, state, flags, captured, current).0)
    ensures token == s.version ==> (r.result.Ok? <==> !s.core.slot.Stored?)
    ensures r.result.Err? ==> r.result.error == InvalidOperation(MultipleAwaiting)
  {
    if token != s.version then Answer(s, Err(InvalidOperation(MultipleAwaiting)))
    else
      var (core, ok) := Register(s.core, continuation, state, flags, captured, current);
      Answer(s.(core := core), if ok then Ok(()) else Err(InvalidOperation(MultipleAwaiting)))
  }

  /** NotifyCompleted, counted as one completion of the current version. */
  function Complete(s: SourceState): SourceState {
    s.(core := Notify(s.core), completions := s.completions + 1)
  }

  /** OnTimerTimeout: a requested cancellation is stored as an
      OperationCanceledException; a source without a monitor stores a
      NullReferenceException; otherwise the monitor's last measurement and its
      time are copied. In every case the source then completes, once. */
  function OnTimerTimeout(s: SourceState, monitor: MonitorState): (r: SourceState)
    ensures r.completions == s.completions + 1 && r.core == Notify(s.core)
    ensures r.version == s.version && r.token == s.token && r.timer == s.timer && r.hasMonitor == s.hasMonitor
    ensures IsCancellationRequested(s.token) ==> r.exception == Some(OperationCanceled)
    ensures !IsCancellationRequested(s.token) && !s.hasMonitor ==> r.exception == Some(NullReference)
    ensures !IsCancellationRequested(s.token) && s.hasMonitor ==>
              r.exception == s.exception && (r.cachedResult, r.lastMeasurementTime) == LastMeasurement(monitor)
  {
    if IsCancellationRequested(s.token) then Complete(s.(exception := Some(OperationCanceled)))
    else if !s.hasMonitor then Complete(s.(exception := Some(NullReference)))
    else
      var (statistics, lastTime) := LastMeasurement(monitor);
      Complete(s.(lastMeasurementTime := lastTime, cachedResult := statistics))
  }

  /** The one-shot timer fires only when it is armed, and disarms itself. */
  function TimerFired(s: SourceState, monitor: MonitorState): (r: SourceState)
    ensures s.timer.Disarmed? ==> r == s
    ensures s.timer.Armed? ==> r == OnTimerTimeout(s.(timer := Disarmed), monitor)
  {
    if s.timer.Armed? then OnTimerTimeout(s.(timer := Disarmed), monitor) else s
  }

  /** The owner of the token cancels it; the default token cannot be
      cancelled. */
  function RequestCancellation(s: SourceState): (r: SourceState)
    ensures s.token.Token? ==> r == s.(token := Token(true))
    ensures s.token == NoToken ==> r == s
  {
    if s.token.Token? then s.(token := Token(true)) else s
  }

  /** Start: the monitor and the token are kept first. A monitor that is not
      running throws. When the monitor's last scrape is close enough to the
      saved one, the cached result is handed back at once and no timer is
      armed; otherwise the timer is armed with the monitor's wait, and the
      ValueTask is bound to the current version; a timer that cannot be
      changed throws. */
  function Start(s: SourceState, token: CancelToken, monitor: MonitorState, now: int, timerChanged: bool)
    : (r: Answer<Started>)
    ensures r.next.hasMonitor && r.next.token == token
    ensures r.next.(hasMonitor := s.hasMonitor, token := s.token, timer := s.timer) == s
    ensures !monitor.started ==> r.result == Err(MonitorNotStarted) && r.next.timer == s.timer
    ensures monitor.started && monitor.prevScrapTime <= s.lastMeasurementTime + Delta ==>
              r.result == Ok(Completed(s.cachedResult)) && r.next.timer == s.timer
    ensures monitor.started && monitor.prevScrapTime > s.lastMeasurementTime + Delta && !timerChanged ==>
              r.result == Err(TimerNotChanged) && r.next.timer == s.timer
    ensures monitor.started && monitor.prevScrapTime > s.lastMeasurementTime + Delta && timerChanged ==>
              r.result == Ok(Bound(s.version)) && r.next.timer == Armed(GetTimeBeforeNextScrap(monitor, now).value)
  {
    var kept := s.(hasMonitor := true, token := token);
    match IsMeasurementActual(monitor, s.lastMeasurementTime)
    case Err(e) => Answer(kept, Err(e))
    case Ok(actual) =>
      if actual then Answer(kept, Ok(Completed(s.cachedResult)))
      else
        var sleepTime := GetTimeBeforeNextScrap(monitor, now).value;
        if !timerChanged then Answer(kept, Err(TimerNotChanged))
        else Answer(kept.(timer := Armed(sleepTime)), Ok(Bound(s.version)))
  }

  // ---------------------------------------------------------------------
  // Runs of steps

  /** One atomic step of the source's life. */
  datatype Step =
    | StartStep(token: CancelToken, monitor: MonitorState, now: int, timerChanged: bool)
    | TimerStep(monitor: MonitorState)
    | CancelStep
    | OnCompletedStep(continuation: Continuation, state: Option<StateObject>, version: Int16, flags: Flags,
                      captured: Option<ExecContext>, current: Scheduler)
    | GetStatusStep(version: Int16)
    | GetResultStep(version: Int16)

  function Apply(s: SourceState, step: Step): SourceState {
    match step
    case StartStep(token, monitor, now, timerChanged) => Start(s, token, monitor, now, timerChanged).next
    case TimerStep(monitor) => TimerFired(s, monitor)
    case CancelStep => RequestCancellation(s)
    case OnCompletedStep(k, state, version, flags, captured, current) =>
      OnCompleted(s, k, state, version, flags, captured, current).next
    case GetStatusStep(_) => s
    case GetResultStep(version) => GetResult(s, version).next
  }

  function Run(s: SourceState, steps: seq<Step>): SourceState
    decreases |steps|
  {
    if steps == [] then s else Run(Apply(s, steps[0]), steps[1..])
  }

  /** The sentinel sits in the slot only after a completion of the current
      version. */
  predicate SentinelAfterCompletion(s: SourceState) {
    s.core.slot.Sentinel? ==> s.completions > 0
  }

  predicate SentinelNeverRan(log: seq<Invocation>) {
    forall i :: 0 <= i < |log| ==> !log[i].target.Sentinel?
  }

  /** A step that fires the timer finds no completion in the current
      version. */
  predicate FirstCompletion(s: SourceState, step: Step) {
    step.TimerStep? && s.timer.Armed? ==> s.completions == 0
  }

  /** Every run in which the timer completes each version at most once. */
  predicate OneCompletionPerVersion(s: SourceState, steps: seq<Step>)
    decreases |steps|
  {
    steps == [] || (FirstCompletion(s, steps[0]) && OneCompletionPerVersion(Apply(s, steps[0]), steps[1..]))
  }

  lemma StepKeepsSentinelUnrun(s: SourceState, step: Step)
    requires SentinelAfterCompletion(s) && SentinelNeverRan(s.core.dispatched) && FirstCompletion(s, step)
    ensures SentinelAfterCompletion(Apply(s, step)) && SentinelNeverRan(Apply(s, step).core.dispatched)
  {
    match step
    case TimerStep(monitor) =>
      if s.timer.Armed? {
        var r := Apply(s, step);
        assert r.core == Notify(s.core);
        assert !s.core.slot.Sentinel?;
        assert forall i :: |s.core.dispatched| <= i < |r.core.dispatched| ==> r.core.dispatched[i].target == s.core.slot;
      }
    case OnCompletedStep(k, state, version, flags, captured, current) =>
      if version == s.version {
        var r := Apply(s, step);
        assert forall i :: |s.core.dispatched| <= i < |r.core.dispatched| ==> r.core.dispatched[i].target == Stored(k);
      }
    case _ =>
  }

  /** With at most one completion per version, the sentinel is never run,
      whatever the order in which awaiters, timers, cancellations and callers
      of GetResult and Start take their turns. */
  lemma {:induction false} SentinelNeverRuns(s: SourceState, steps: seq<Step>)
    requires SentinelAfterCompletion(s) && SentinelNeverRan(s.core.dispatched)
    requires OneCompletionPerVersion(s, steps)
    ensures SentinelAfterCompletion(Run(s, steps)) && SentinelNeverRan(Run(s, steps).core.dispatched)
    decreases |steps|
  {
    if steps != [] {
      StepKeepsSentinelUnrun(s, steps[0]);
      SentinelNeverRuns(Apply(s, steps[0]), steps[1..]);
    }
  }

  /** A second completion in the same version does run the sentinel: after
      the first one filled the slot, the next finds the sentinel there. */
  lemma SecondCompletionRunsSentinel(s: SourceState, monitor: MonitorState)
    requires s.core.slot.Empty?
    ensures var twice := Complete(Complete(s));
            twice.core.dispatched == s.core.dispatched + [Invocation(Sentinel, s.core.state,
                                                           DispatchPathFor(s.core.scheduler, false), s.core.ec)]
  {
  }

  /** No step with a stale version changes anything, and each is refused. */
  lemma StaleTokenChangesNothing(s: SourceState, token: Int16, continuation: Continuation,
                                 state: Option<StateObject>, flags: Flags, captured: Option<ExecContext>,
                                 current: Scheduler)
    requires token != s.version
    ensures GetResult(s, token) == Answer(s, Err(InvalidOperation(MultipleAwaiting)))
    ensures GetStatus(s, token) == Err(InvalidOperation(MultipleAwaiting))
    ensures OnCompleted(s, continuation, state, token, flags, captured, current)
            == Answer(s, Err(InvalidOperation(MultipleAwaiting)))
  {
  }

  /** Once GetResult has delivered an outcome, the version it was called with
      is stale: calling it again is refused and changes nothing. */
  lemma SecondGetResultRefused(s: SourceState, token: Int16)
    requires GetResult(s, token).next != s
    ensures var after := GetResult(s, token).next;
            GetResult(after, token) == Answer(after, Err(InvalidOperation(MultipleAwaiting)))
  {
  }

  /** GetStatus and GetResult agree: Pending exactly when GetResult fails
      without a change, Succeeded and Faulted when GetResult returns the
      result or throws the stored exception, Canceled when it throws and
      resets. */
  lemma StatusMatchesResult(s: SourceState, token: Int16)
    ensures GetStatus(s, token) == Ok(Pending) <==> GetResult(s, token) == Answer(s, Err(InvalidOperation(NotYetComplete)))
    ensures GetStatus(s, token) == Ok(Succeeded) ==> GetResult(s, token) == Answer(Reset(s), Ok(s.cachedResult))
    ensures GetStatus(s, token) == Ok(Faulted) ==> GetResult(s, token) == Answer(Reset(s), Err(s.exception.value))
    ensures GetStatus(s, token) == Ok(Canceled) ==> GetResult(s, token).next == Reset(s) && GetResult(s, token).result.Err?
    ensures GetStatus(s, token).Err? <==> GetResult(s, token) == Answer(s, Err(InvalidOperation(MultipleAwaiting)))
  {
  }

  /** The timer completes before anybody awaits: the slot takes the sentinel,
      and the awaiter that comes next runs its continuation on the spot, once,
      inline unless a scheduler is captured. */
  lemma CompletionBeforeAwait(s: SourceState, monitor: MonitorState, continuation: Continuation,
                              state: Option<StateObject>, flags: Flags, captured: Option<ExecContext>,
                              current: Scheduler)
    requires s.core.slot.Empty? && s.timer.Armed?
    ensures var fired := TimerFired(s, monitor);
            var awaited := OnCompleted(fired, continuation, state, s.version, flags, captured, current);
            var scheduler := SchedulerAfter(s.core.scheduler, flags, current);
            && fired.core.slot == Sentinel && fired.core.dispatched == s.core.dispatched
            && awaited.result == Ok(())
            && awaited.next.core.dispatched
               == s.core.dispatched + [Invocation(Stored(continuation), state, DispatchPathFor(scheduler, true), None)]
            && (scheduler.NoScheduler? ==> DispatchPathFor(scheduler, true) == Inline)
  {
  }

  /** An awaiter registers before the timer completes: the completion runs
      the continuation, once, never inline, under the execution context the
      awaiter captured. */
  lemma AwaitBeforeCompletion(s: SourceState, monitor: MonitorState, continuation: Continuation,
                              state: Option<StateObject>, flags: Flags, captured: Option<ExecContext>,
                              current: Scheduler)
    requires s.core.slot.Empty? && s.timer.Armed?
    ensures var awaited := OnCompleted(s, continuation, state, s.version, flags, captured, current);
            var fired := TimerFired(awaited.next, monitor);
            var scheduler := SchedulerAfter(s.core.scheduler, flags, current);
            var ec := if flags.flowExecutionContext then captured else s.core.ec;
            && awaited.result == Ok(()) && awaited.next.core.dispatched == s.core.dispatched
            && fired.core.dispatched
               == s.core.dispatched + [Invocation(Stored(continuation), state, DispatchPathFor(scheduler, false), ec)]
            && DispatchPathFor(scheduler, false) != Inline
  {
  }

  /** A completion that copies a real measurement leaves the source
      Succeeded, and GetResult then returns that measurement. */
  lemma CompletionDeliversMeasurement(s: SourceState, monitor: MonitorState)
    requires s.timer.Armed? && s.hasMonitor && !IsCancellationRequested(s.token) && s.exception.None?
    requires Measured(monitor) && monitor.prevScrapTime != 0
    ensures var fired := TimerFired(s, monitor);
            GetStatus(fired, s.version) == Ok(Succeeded) && GetResult(fired, s.version).result == Ok(monitor.cache)
  {
  }

  /** A second awaiter on the same version is refused and leaves the first
      one registered. */
  lemma SecondAwaiterRefused(s: SourceState, first: Continuation, second: Continuation,
                             state: Option<StateObject>, flags: Flags, captured: Option<ExecContext>,
                             current: Scheduler)
    requires s.core.slot.Empty?
    ensures var once := OnCompleted(s, first, state, s.version, flags, captured, current).next;
            var twice := OnCompleted(once, second, state, s.version, flags, captured, current);
            twice.result == Err(InvalidOperation(MultipleAwaiting)) && twice.next.core.slot == Stored(first)
            && twice.next.core.dispatched == s.core.dispatched
  {
  }

  // ---------------------------------------------------------------------
  // Start hands back a default statistic

  /** A running monitor that scraped 42 at instant 5 000 000, with the next
      scrape a second later. */
  function ScrapedMonitor(): (m: MonitorState)
    ensures m.started && Measured(m) && LastMeasurement(m) == (42, 5_000_000)
  {
    MonitorState(10_000_000, 42, 5_000_000, 15_000_000, true, Periodic(0, 10_000_000))
  }

  /** As written, a source reused after GetResult hands back the default
      statistic: GetResult cleared the cached result but kept the saved
      measurement time, so the next Start finds the measurement actual and
      returns the cleared cache. */
  lemma ReusedSourceReturnsDefault()
    ensures var m := ScrapedMonitor();
            var first := Start(Init(), NoToken, m, 6_000_000, true);
            var fired := TimerFired(first.next, m);
            var got := GetResult(fired, 0);
            var again := Start(got.next, NoToken, m, 6_000_000, true);
            && first.result == Ok(Bound(0)) && got.result == Ok(42)
            && again.result == Ok(Completed(0))
  {
    var m := ScrapedMonitor();
    var first := Start(Init(), NoToken, m, 6_000_000, true);
    assert first.next.timer == Armed(9_000_000);
  }

  /** As written, a source started before the monitor's first scrape hands
      back the default statistic: both the saved and the monitor's scrape
      times are still zero, so the nothing in the cache counts as actual. */
  lemma StartBeforeFirstScrapeReturnsDefault()
    ensures var m := NewMonitor(10_000_000).(started := true);
            Start(Init(), NoToken, m, 1, true).result == Ok(Completed(0))
  {
  }

  /** Start as evidently intended: the at-once answer is given only when the
      monitor has scraped, and it is the monitor's measurement, which
      IsMeasurementActual has just judged close enough to the saved one.
      Everything else is as in Start. */
  function StartFresh(s: SourceState, token: CancelToken, monitor: MonitorState, now: int, timerChanged: bool)
    : (r: Answer<Started>)
    ensures r.next.hasMonitor && r.next.token == token
    ensures r.next.(hasMonitor := s.hasMonitor, token := s.token, timer := s.timer) == s
    ensures !monitor.started ==> r.result == Err(MonitorNotStarted) && r.next.timer == s.timer
    ensures r.result.Ok? && r.result.value.Completed? ==>
              r.result.value.value == monitor.cache && monitor.prevScrapTime != 0 && r.next.timer == s.timer
              && monitor.prevScrapTime <= s.lastMeasurementTime + Delta
    ensures monitor.started && (monitor.prevScrapTime == 0 || monitor.prevScrapTime > s.lastMeasurementTime + Delta) ==>
              r.result == (if timerChanged then Ok(Bound(s.version)) else Err(TimerNotChanged))
    ensures monitor.started && (monitor.prevScrapTime == 0 || monitor.prevScrapTime > s.lastMeasurementTime + Delta) ==>
              r.next.timer == (if timerChanged then Armed(GetTimeBeforeNextScrap(monitor, now).value) else s.timer)
  {
    var kept := s.(hasMonitor := true, token := token);
    match IsMeasurementActual(monitor, s.lastMeasurementTime)
    case Err(e) => Answer(kept, Err(e))
    case Ok(actual) =>
      if actual && monitor.prevScrapTime != 0 then Answer(kept, Ok(Completed(monitor.cache)))
      else
        var sleepTime := GetTimeBeforeNextScrap(monitor, now).value;
        if !timerChanged then Answer(kept, Err(TimerNotChanged))
        else Answer(kept.(timer := Armed(sleepTime)), Ok(Bound(s.version)))
  }

  /** The intended Start never hands back the default statistic: whatever it
      returns at once is a real measurement. */
  lemma StartFreshReturnsMeasurement(s: SourceState, token: CancelToken, monitor: MonitorState, now: int,
                                     timerChanged: bool)
    requires Measured(monitor)
    ensures var r := StartFresh(s, token, monitor, now, timerChanged);
            r.result.Ok? && r.result.value.Completed? ==> 10 <= r.result.value.value < 60
  {
  }

  /** On the two runs that show the defect, the intended Start waits for the
      first scrape, and hands the reused source the measurement. */
  lemma StartFreshOnDefectRuns()
    ensures var m := ScrapedMonitor();
            var first := Start(Init(), NoToken, m, 6_000_000, true);
            var got := GetResult(TimerFired(first.next, m), 0);
            StartFresh(got.next, NoToken, m, 6_000_000, true).result == Ok(Completed(42))
    ensures var m := NewMonitor(10_000_000).(started := true);
            StartFresh(Init(), NoToken, m, 1, true).result == Ok(Bound(0))
  {
    var m := ScrapedMonitor();
    var first := Start(Init(), NoToken, m, 6_000_000, true);
    assert first.next.timer == Armed(9_000_000);
  }
}
