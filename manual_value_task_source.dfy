// ManualValueTaskSource as a state machine: the single-use source the custom
// monitor creates for every request. It is never reset: GetResult does not
// look at the version and can be called again, the slot never goes back to
// empty, and Start draws a random version when it binds the ValueTask.

module ManualValueTaskSources {
  import opened Wrappers
  import opened ValueTaskSources
  import opened MeasurementCache

  /** The source's one-shot timer. */
  datatype SourceTimer = Disarmed | Armed(dueTime: int)

  /** What Start hands back: a ValueTask that already holds a statistic, or
      one bound to this source and a version. */
  datatype Started = Completed(value: int) | Bound(version: Int16)

  /** The source's fields; the cached result 0 is the default PcStatistics,
      "no result yet", and hasMonitor says whether _monitor is set. */
  datatype SourceState = SourceState(core: Core, version: Int16, cachedResult: int, exception: Option<Exception>,
                                     hasMonitor: bool, lastMeasurementTime: int, timer: SourceTimer)

  /** What a call leaves behind and what it returns or throws. */
  datatype Answer<T> = Answer(next: SourceState, result: Result<T, Exception>)

  /** A newly constructed source. */
  function Init(): (s: SourceState)
    ensures s.core.slot.Empty? && s.core.dispatched == [] && s.cachedResult == 0 && s.lastMeasurementTime == 0
    ensures !s.hasMonitor && s.timer.Disarmed?
  {
    SourceState(Core(Empty, None, NoScheduler, None, []), 0, 0, None, false, 0, Disarmed)
  }

  /** GetResult: the version is not checked and nothing changes; a stored
      exception is thrown, a missing result fails, otherwise the result is
      returned. */
  function GetResult(s: SourceState, token: Int16): (r: Result<int, Exception>)
    ensures s.exception.Some? ==> r == Err(s.exception.value)
    ensures s.exception.None? ==> (r.Ok? <==> s.cachedResult != 0)
    ensures r.Ok? ==> r.value == s.cachedResult
    ensures s.exception.None? && s.cachedResult == 0 ==> r == Err(InvalidOperation(NotYetComplete))
  {
    if s.exception.Some? then Err(s.exception.value)
    else if s.cachedResult == 0 then Err(InvalidOperation(NotYetComplete))
    else Ok(s.cachedResult)
  }

  /** GetStatus: a stale version is refused; a stored exception wins over a
      result. There is no cancellation. */
  function GetStatus(s: SourceState, token: Int16): (r: Result<Status, Exception>)
    ensures r.Err? <==> token != s.version
    ensures r.Err? ==> r.error == InvalidOperation(MultipleAwaiting)
    ensures r != Ok(Canceled)
    ensures r == Ok(Faulted) <==> token == s.version && s.exception.Some?
    ensures r == Ok(Succeeded) <==> token == s.version && s.exception.None? && s.cachedResult != 0
    ensures r == Ok(Pending) <==> token == s.version && s.exception.None? && s.cachedResult == 0
  {
    if token != s.version then Err(InvalidOperation(MultipleAwaiting))
    else if s.exception.Some? then Ok(Faulted)
    else if s.cachedResult != 0 then Ok(Succeeded)
    else Ok(Pending)
  }

  /** OnCompleted: a stale version is refused and changes nothing; otherwise
      the registration of the completion protocol, which refuses an awaiter
      that finds another continuation in the slot. */
  function OnCompleted(s: SourceState, continuation: Continuation, state: Option<StateObject>, token: Int16,
                       flags: Flags, captured: Option<ExecContext>, current: Scheduler): (r: Answer<()>)
    ensures token != s.version ==> r == Answer(s, Err(InvalidOperation(MultipleAwaiting)))
    ensures token == s.version ==> r.next == s.(core := Register(s.core, continuation, state, flags, captured, current).0)
    ensures token == s.version ==> (r.result.Ok? <==> !s.core.slot.Stored?)
    ensures token == s.version && r.result.Err? ==> r.result.error == InvalidOperation(SentinelExpected)
  {
    if token != s.version then Answer(s, Err(InvalidOperation(MultipleAwaiting)))
    else
      var (core, ok) := Register(s.core, continuation, state, flags, captured, current);
      Answer(s.(core := core), if ok then Ok(()) else Err(InvalidOperation(SentinelExpected)))
  }

  /** OnTimerTimeout: a source without a monitor stores a
      NullReferenceException; otherwise the monitor's last measurement and its
      time are copied. Either way the source then completes. */
  function OnTimerTimeout(s: SourceState, monitor: MonitorState): (r: SourceState)
    ensures r.core == Notify(s.core)
    ensures r.version == s.version && r.timer == s.timer && r.hasMonitor == s.hasMonitor
    ensures !s.hasMonitor ==> r.exception == Some(NullReference)
    ensures s.hasMonitor ==> r.exception == s.exception && (r.cachedResult, r.lastMeasurementTime) == LastMeasurement(monitor)
  {
    if !s.hasMonitor then s.(exception := Some(NullReference), core := Notify(s.core))
    else
      var (statistics, lastTime) := LastMeasurement(monitor);
      s.(lastMeasurementTime := lastTime, cachedResult := statistics, core := Notify(s.core))
  }

  /** The one-shot timer fires only when it is armed, and disarms itself. */
  function TimerFired(s: SourceState, monitor: MonitorState): (r: SourceState)
    ensures s.timer.Disarmed? ==> r == s
    ensures s.timer.Armed? ==> r == OnTimerTimeout(s.(timer := Disarmed), monitor)
  {
    if s.timer.Armed? then OnTimerTimeout(s.(timer := Disarmed), monitor) else s
  }

  /** Start: the monitor is kept first. A monitor that is not running throws.
      When the monitor's last scrape is close enough to the saved one, the
      cached result is handed back at once; otherwise the timer is armed with
      the monitor's wait and, only once that succeeded, a random version in
      [0, 32767) is drawn and the ValueTask bound to it. */
  function Start(s: SourceState, monitor: MonitorState, now: int, timerChanged: bool, random: Int16)
    : (r: Answer<Started>)
    requires 0 <= random < MaxInt16
    ensures r.next.hasMonitor
    ensures r.next.(hasMonitor := s.hasMonitor, timer := s.timer, version := s.version) == s
    ensures r.next.version != s.version ==> r.result == Ok(Bound(random)) && r.next.version == random
    ensures !monitor.started ==> r.result == Err(MonitorNotStarted) && r.next == s.(hasMonitor := true)
    ensures monitor.started && monitor.prevScrapTime <= s.lastMeasurementTime + Delta ==>
              r == Answer(s.(hasMonitor := true), Ok(Completed(s.cachedResult)))
    ensures monitor.started && monitor.prevScrapTime > s.lastMeasurementTime + Delta && !timerChanged ==>
              r == Answer(s.(hasMonitor := true), Err(TimerNotChanged))
    ensures monitor.started && monitor.prevScrapTime > s.lastMeasurementTime + Delta && timerChanged ==>
              r.result == Ok(Bound(random)) && r.next.version == random
              && r.next.timer == Armed(GetTimeBeforeNextScrap(monitor, now).value)
  {
    var kept := s.(hasMonitor := true);
    match IsMeasurementActual(monitor, s.lastMeasurementTime)
    case Err(e) => Answer(kept, Err(e))
    case Ok(actual) =>
      if actual then Answer(kept, Ok(Completed(s.cachedResult)))
      else
        var sleepTime := GetTimeBeforeNextScrap(monitor, now).value;
        if !timerChanged then Answer(kept, Err(TimerNotChanged))
        else Answer(kept.(timer := Armed(sleepTime), version := random), Ok(Bound(random)))
  }

  // ---------------------------------------------------------------------
  // Runs of steps

  /** One atomic step of the source's life. */
  datatype Step =
    | StartStep(monitor: MonitorState, now: int, timerChanged: bool, random: Int16)
    | TimerStep(monitor: MonitorState)
    | OnCompletedStep(continuation: Continuation, state: Option<StateObject>, version: Int16, flags: Flags,
                      captured: Option<ExecContext>, current: Scheduler)
    | GetStatusStep(version: Int16)
    | GetResultStep(version: Int16)

  /** Start draws its version from [0, 32767). */
  predicate Drawn(step: Step) {
    step.StartStep? ==> 0 <= step.random < MaxInt16
  }

  function Apply(s: SourceState, step: Step): SourceState
    requires Drawn(step)
  {
    match step
    case StartStep(monitor, now, timerChanged, random) => Start(s, monitor, now, timerChanged, random).next
    case TimerStep(monitor) => TimerFired(s, monitor)
    case OnCompletedStep(k, state, version, flags, captured, current) =>
      OnCompleted(s, k, state, version, flags, captured, current).next
    case GetStatusStep(_) => s
    case GetResultStep(_) => s
  }

  function Run(s: SourceState, steps: seq<Step>): SourceState
    requires forall i :: 0 <= i < |steps| ==> Drawn(steps[i])
    decreases |steps|
  {
    if steps == [] then s else Run(Apply(s, steps[0]), steps[1..])
  }

  /** Once the slot holds the sentinel or a continuation, no run of steps
      empties it again: the source is single-use. */
  lemma {:induction false} SlotStaysFilled(s: SourceState, steps: seq<Step>)
    requires forall i :: 0 <= i < |steps| ==> Drawn(steps[i])
    requires !s.core.slot.Empty?
    ensures !Run(s, steps).core.slot.Empty?
    decreases |steps|
  {
    if steps != [] {
      match steps[0] {
        case OnCompletedStep(k, state, version, flags, captured, current) =>
          SlotNeverEmptied(s.core, k, state, flags, captured, current);
        case TimerStep(monitor) =>
          if s.timer.Armed? {
            SlotNeverEmptied(s.core, 0, None, Flags(false, false), None, NoScheduler);
          }
        case _ =>
      }
      SlotStaysFilled(Apply(s, steps[0]), steps[1..]);
    }
  }

  /** GetResult answers the same whatever version it is given, and asking
      again changes nothing, unlike GetStatus, which refuses a stale one. */
  lemma GetResultIgnoresVersion(s: SourceState, token: Int16)
    ensures GetResult(s, token) == GetResult(s, s.version)
    ensures token != s.version ==> GetStatus(s, token).Err?
    ensures Apply(s, GetResultStep(token)) == s
  {
  }

  /** Once completed, the source keeps answering: every later awaiter of the
      bound version finds the sentinel and runs its continuation at once,
      synchronously. */
  lemma LateAwaitersRunAtOnce(s: SourceState, first: Continuation, second: Continuation,
                              state: Option<StateObject>, flags: Flags, captured: Option<ExecContext>,
                              current: Scheduler)
    requires s.core.slot.Sentinel?
    ensures var once := OnCompleted(s, first, state, s.version, flags, captured, current);
            var twice := OnCompleted(once.next, second, state, s.version, flags, captured, current);
            var scheduler := SchedulerAfter(s.core.scheduler, flags, current);
            && once.result == Ok(()) && twice.result == Ok(())
            && twice.next.core.dispatched == s.core.dispatched
                 + [Invocation(Stored(first), state, DispatchPathFor(scheduler, true), None),
                    Invocation(Stored(second), state, DispatchPathFor(SchedulerAfter(scheduler, flags, current), true), None)]
  {
  }

  /** Whichever of the awaiter and the timer comes first, the continuation
      runs exactly once; inline only if the timer came first and no scheduler
      is captured. */
  lemma ExactlyOneDispatch(s: SourceState, monitor: MonitorState, continuation: Continuation,
                           state: Option<StateObject>, flags: Flags, captured: Option<ExecContext>,
                           current: Scheduler)
    requires s.core.slot.Empty? && s.timer.Armed?
    ensures var scheduler := SchedulerAfter(s.core.scheduler, flags, current);
            var completedFirst := OnCompleted(TimerFired(s, monitor), continuation, state, s.version, flags, captured, current).next;
            completedFirst.core.dispatched
              == s.core.dispatched + [Invocation(Stored(continuation), state, DispatchPathFor(scheduler, true), None)]
    ensures var scheduler := SchedulerAfter(s.core.scheduler, flags, current);
            var ec := if flags.flowExecutionContext then captured else s.core.ec;
            var awaitedFirst := TimerFired(OnCompleted(s, continuation, state, s.version, flags, captured, current).next, monitor);
            awaitedFirst.core.dispatched
              == s.core.dispatched + [Invocation(Stored(continuation), state, DispatchPathFor(scheduler, false), ec)]
  {
  }

  /** As written, a source started before the monitor's first scrape hands
      back the default statistic, like the reusable source does. */
  lemma StartBeforeFirstScrapeReturnsDefault()
    ensures var m := NewMonitor(10_000_000).(started := true);
            Start(Init(), m, 1, true, 7).result == Ok(Completed(0))
  {
  }

  /** Start as evidently intended: the at-once answer is given only when the
      monitor has scraped, and it is the monitor's measurement. */
  function StartFresh(s: SourceState, monitor: MonitorState, now: int, timerChanged: bool, random: Int16)
    : (r: Answer<Started>)
    requires 0 <= random < MaxInt16
    ensures r.next.hasMonitor
    ensures r.next.(hasMonitor := s.hasMonitor, timer := s.timer, version := s.version) == s
    ensures !monitor.started ==> r.result == Err(MonitorNotStarted)
    ensures r.result.Ok? && r.result.value.Completed? ==>
              r.result.value.value == monitor.cache && monitor.prevScrapTime != 0
              && monitor.prevScrapTime <= s.lastMeasurementTime + Delta && r.next == s.(hasMonitor := true)
    ensures monitor.started && (monitor.prevScrapTime == 0 || monitor.prevScrapTime > s.lastMeasurementTime + Delta) ==>
              r.result == (if timerChanged then Ok(Bound(random)) else Err(TimerNotChanged))
    ensures r.result.Ok? && r.result.value.Bound? ==>
              r.next.version == random && r.next.timer == Armed(GetTimeBeforeNextScrap(monitor, now).value)
  {
    var kept := s.(hasMonitor := true);
    match IsMeasurementActual(monitor, s.lastMeasurementTime)
    case Err(e) => Answer(kept, Err(e))
    case Ok(actual) =>
      if actual && monitor.prevScrapTime != 0 then Answer(kept, Ok(Completed(monitor.cache)))
      else
        var sleepTime := GetTimeBeforeNextScrap(monitor, now).value;
        if !timerChanged then Answer(kept, Err(TimerNotChanged))
        else Answer(kept.(timer := Armed(sleepTime), version := random), Ok(Bound(random)))
  }

  /** The intended Start never hands back the default statistic, and waits
      for the first scrape instead. */
  lemma StartFreshReturnsMeasurement(s: SourceState, monitor: MonitorState, now: int, timerChanged: bool,
                                     random: Int16)
    requires 0 <= random < MaxInt16
    requires Measured(monitor)
    ensures var r := StartFresh(s, monitor, now, timerChanged, random);
            r.result.Ok? && r.result.value.Completed? ==> 10 <= r.result.value.value < 60
    ensures StartFresh(Init(), NewMonitor(10_000_000).(started := true), 1, true, 7).result == Ok(Bound(7))
  {
  }
}
