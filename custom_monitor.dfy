// The PC monitor of the custom flavour and its single-use source, as classes
// whose methods update their fields in place. Every method is proved against
// the step functions of MeasurementCache and ManualValueTaskSources.

module CustomMonitor {
  import opened Wrappers
  import opened ValueTaskSources
  import M = MeasurementCache
  import S = ManualValueTaskSources

  class CustomPcMonitor {
    const scrapTimeout: int
    var cache: int
    var prevScrapTime: int
    var nextScrapTime: int
    var started: bool
    var updateTimer: M.UpdateTimer

    function View(): M.MonitorState
      reads this
    {
      M.MonitorState(scrapTimeout, cache, prevScrapTime, nextScrapTime, started, updateTimer)
    }

    /** A monitor that does not run yet, with an idle timer. */
    constructor(scrapTimeout: int)
      ensures View() == M.NewMonitor(scrapTimeout)
    {
      this.scrapTimeout := scrapTimeout;
      cache := 0;
      prevScrapTime := 0;
      nextScrapTime := 0;
      started := false;
      updateTimer := M.Idle;
    }

    /** Start: the monitor runs from now on, and its timer is set to fire at
        once and then every period; a timer that cannot be changed throws,
        though the monitor already counts as running. */
    method Start(timerChanged: bool) returns (r: Result<(), Exception>)
      modifies this
      ensures View() == old(View()).(started := true,
                                     timer := if timerChanged then M.Periodic(0, scrapTimeout) else old(updateTimer))
      ensures r == (if timerChanged then Ok(()) else Err(TimerNotChanged))
    {
      started := true;
      if !timerChanged {
        return Err(TimerNotChanged);
      }
      updateTimer := M.Periodic(0, scrapTimeout);
      return Ok(());
    }

    /** Stop: the monitor no longer runs, and its timer is idled; a timer
        that cannot be changed throws. */
    method Stop(timerChanged: bool) returns (r: Result<(), Exception>)
      modifies this
      ensures View() == old(View()).(started := false, timer := if timerChanged then M.Idle else old(updateTimer))
      ensures r == (if timerChanged then Ok(()) else Err(TimerNotStopped))
    {
      started := false;
      if !timerChanged {
        return Err(TimerNotStopped);
      }
      updateTimer := M.Idle;
      return Ok(());
    }

    /** The timer callback, at instant now, with the sampled statistic. */
    method OnTimeout(now: int, sample: Option<int>)
      modifies this
      ensures View() == M.OnTimeout(old(View()), now, sample)
    {
      if sample.Some? {
        cache := sample.value;
        prevScrapTime := now;
      }
      nextScrapTime := now + scrapTimeout;
    }

    /** GetStatisticsAsync: every request gets a new source, started with this
        monitor; no source is ever reused. */
    method GetStatisticsAsync(now: int, timerChanged: bool, random: Int16)
      returns (source: ManualValueTaskSource, r: Result<S.Started, Exception>)
      requires 0 <= random < MaxInt16
      ensures fresh(source) && source.monitor == this
      ensures S.Start(S.Init(), View(), now, timerChanged, random) == S.Answer(source.Snapshot(), r)
    {
      source := new ManualValueTaskSource();
      r := source.Start(this, now, timerChanged, random);
    }

    /** Dispose: Stop, then the timer is disposed; when Stop throws, so does
        Dispose, and the timer stays as Stop left it. */
    method Dispose(timerChanged: bool) returns (r: Result<(), Exception>)
      modifies this
      ensures r == (if timerChanged then Ok(()) else Err(TimerNotStopped))
      ensures View() == old(View()).(started := false, timer := if timerChanged then M.Disposed else old(updateTimer))
    {
      r := Stop(timerChanged);
      if r.Err? {
        return;
      }
      started := false;
      updateTimer := M.Disposed;
    }
  }

  class ManualValueTaskSource {
    var monitor: CustomPcMonitor?
    var lastMeasurementTime: int
    var cachedResult: int
    var exception: Option<Exception>
    var state: Option<StateObject>
    var scheduler: Scheduler
    var continuation: Slot
    var version: Int16
    var ec: Option<ExecContext>
    var timer: S.SourceTimer
    var timerDisposed: bool
    /** Every dispatch so far. */
    var dispatched: seq<Invocation>

    function Snapshot(): S.SourceState
      reads this
    {
      S.SourceState(Core(continuation, state, scheduler, ec, dispatched), version, cachedResult, exception,
                    monitor != null, lastMeasurementTime, timer)
    }

    /** What the timer callback reads from the monitor: its state, or any
        state when there is no monitor, since none is read then. */
    function MonitorSeen(): M.MonitorState
      reads this, monitor
    {
      if monitor != null then monitor.View() else M.NewMonitor(0)
    }

    constructor()
      ensures Snapshot() == S.Init() && monitor == null && !timerDisposed
    {
      monitor := null;
      lastMeasurementTime := 0;
      cachedResult := 0;
      exception := None;
      state := None;
      scheduler := NoScheduler;
      continuation := Empty;
      version := 0;
      ec := None;
      timer := S.Disarmed;
      timerDisposed := false;
      dispatched := [];
    }

    method GetResult(token: Int16) returns (r: Result<int, Exception>)
      ensures r == S.GetResult(Snapshot(), token)
    {
      if exception.Some? {
        return Err(exception.value);
      }
      if cachedResult == 0 {
        return Err(InvalidOperation(NotYetComplete));
      }
      return Ok(cachedResult);
    }

    method GetStatus(token: Int16) returns (r: Result<Status, Exception>)
      ensures r == S.GetStatus(Snapshot(), token)
    {
      if token != version {
        return Err(InvalidOperation(MultipleAwaiting));
      }
      if exception.Some? {
        return Ok(Faulted);
      }
      if cachedResult != 0 {
        return Ok(Succeeded);
      }
      return Ok(Pending);
    }

    method NotifyCompleted()
      modifies this
      ensures Snapshot() == old(Snapshot()).(core := Notify(old(Snapshot()).core))
      ensures monitor == old(monitor) && timerDisposed == old(timerDisposed)
    {
      var previous := continuation;
      if previous.Empty? {
        continuation := Sentinel;
      } else {
        var context := ec;
        ec := None;
        dispatched := dispatched + [Invocation(previous, state, DispatchPathFor(scheduler, false), context)];
      }
    }

    method OnCompleted(k: Continuation, st: Option<StateObject>, token: Int16, flags: Flags,
                       captured: Option<ExecContext>, current: Scheduler) returns (r: Result<(), Exception>)
      modifies this
      ensures S.OnCompleted(old(Snapshot()), k, st, token, flags, captured, current) == S.Answer(Snapshot(), r)
      ensures monitor == old(monitor) && timerDisposed == old(timerDisposed)
    {
      if token != version {
        return Err(InvalidOperation(MultipleAwaiting));
      }
      CaptureContexts(flags, captured, current);
      var stored := StoreContinuation(k, st);
      r := if stored then Ok(()) else Err(InvalidOperation(SentinelExpected));
    }

    /** The first half of OnCompleted: capture the execution context and the
        scheduler as the flags say. */
    method CaptureContexts(flags: Flags, captured: Option<ExecContext>, current: Scheduler)
      modifies this
      ensures Snapshot() == old(Snapshot()).(core := Capture(old(Snapshot()).core, flags, captured, current))
      ensures monitor == old(monitor) && timerDisposed == old(timerDisposed)
    {
      if flags.flowExecutionContext {
        ec := captured;
      }
      if flags.useSchedulingContext && !current.NoScheduler? {
        scheduler := current;
      }
    }

    /** The second half of OnCompleted: the compare-exchange on the slot. */
    method StoreContinuation(k: Continuation, st: Option<StateObject>) returns (stored: bool)
      modifies this
      ensures (Snapshot().core, stored) == Store(old(Snapshot()).core, k, st)
      ensures Snapshot() == old(Snapshot()).(core := Snapshot().core)
      ensures monitor == old(monitor) && timerDisposed == old(timerDisposed)
    {
      state := st;
      var previous := continuation;
      if previous.Empty? {
        continuation := Stored(k);
        return true;
      }
      state := None;
      if !previous.Sentinel? {
        return false;
      }
      dispatched := dispatched + [Invocation(Stored(k), st, DispatchPathFor(scheduler, true), None)];
      return true;
    }

    method OnTimerTimeout()
      modifies this
      ensures Snapshot() == S.OnTimerTimeout(old(Snapshot()), old(MonitorSeen()))
      ensures monitor == old(monitor) && timerDisposed == old(timerDisposed)
    {
      if monitor == null {
        exception := Some(NullReference);
        NotifyCompleted();
        return;
      }
      var (statistics, lastTime) := M.LastMeasurement(monitor.View());
      lastMeasurementTime := lastTime;
      cachedResult := statistics;
      NotifyCompleted();
    }

    /** The one-shot timer fires, if it is armed. */
    method TimerFires()
      modifies this
      ensures Snapshot() == S.TimerFired(old(Snapshot()), old(MonitorSeen()))
      ensures monitor == old(monitor) && timerDisposed == old(timerDisposed)
    {
      if timer.Armed? {
        timer := S.Disarmed;
        OnTimerTimeout();
      }
    }

    method Start(m: CustomPcMonitor, now: int, timerChanged: bool, random: Int16)
      returns (r: Result<S.Started, Exception>)
      requires 0 <= random < MaxInt16
      modifies this
      ensures S.Start(old(Snapshot()), m.View(), now, timerChanged, random) == S.Answer(Snapshot(), r)
      ensures monitor == m && timerDisposed == old(timerDisposed)
    {
      monitor := m;
      var actual := M.IsMeasurementActual(m.View(), lastMeasurementTime);
      if actual.Err? {
        return Err(actual.error);
      }
      if actual.value {
        return Ok(S.Completed(cachedResult));
      }
      var sleepTime := M.GetTimeBeforeNextScrap(m.View(), now).value;
      if !timerChanged {
        return Err(TimerNotChanged);
      }
      timer := S.Armed(sleepTime);
      version := random;
      return Ok(S.Bound(version));
    }

    /** Start as evidently intended; see ManualValueTaskSources.StartFresh. */
    method StartFresh(m: CustomPcMonitor, now: int, timerChanged: bool, random: Int16)
      returns (r: Result<S.Started, Exception>)
      requires 0 <= random < MaxInt16
      modifies this
      ensures S.StartFresh(old(Snapshot()), m.View(), now, timerChanged, random) == S.Answer(Snapshot(), r)
      ensures monitor == m && timerDisposed == old(timerDisposed)
    {
      monitor := m;
      var actual := M.IsMeasurementActual(m.View(), lastMeasurementTime);
      if actual.Err? {
        return Err(actual.error);
      }
      if actual.value && m.prevScrapTime != 0 {
        return Ok(S.Completed(m.cache));
      }
      var sleepTime := M.GetTimeBeforeNextScrap(m.View(), now).value;
      if !timerChanged {
        return Err(TimerNotChanged);
      }
      timer := S.Armed(sleepTime);
      version := random;
      return Ok(S.Bound(version));
    }

    /** Dispose: the monitor the source was started with is disposed too,
        then the source's timer. */
    method Dispose(timerChanged: bool) returns (r: Result<(), Exception>)
      modifies this, monitor
      ensures Snapshot() == old(Snapshot()) && monitor == old(monitor)
      ensures old(monitor) != null ==> r == (if timerChanged then Ok(()) else Err(TimerNotStopped))
      ensures old(monitor) != null ==>
                monitor.View() == old(monitor.View()).(started := false,
                                                       timer := if timerChanged then M.Disposed else old(monitor.updateTimer))
      ensures timerDisposed == (old(timerDisposed) || r.Ok?)
    {
      r := Ok(());
      if monitor != null {
        r := monitor.Dispose(timerChanged);
        if r.Err? {
          return;
        }
      }
      timerDisposed := true;
    }
  }
}
