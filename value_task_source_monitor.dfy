// The PC monitor of the ValueTask-source flavour and its reusable source, as
// classes whose methods update their fields in place. Every method is proved
// against the step functions of MeasurementCache and PcStatisticsSources,
// where the properties of the protocol are stated and proved.

module ValueTaskSourceMonitor {
  import opened Wrappers
  import opened ValueTaskSources
  import M = MeasurementCache
  import P = PcStatisticsSources

  class ValueTaskSourcePcMonitor {
    const scrapTimeout: int
    var cache: int
    var prevScrapTime: int
    var nextScrapTime: int
    var started: bool
    var updateTimer: M.UpdateTimer
    /** The sources the pool retains, by identity. Nothing in this model adds
        to it: a PcStatisticsValueTaskSource returns itself to the pool once
        its result is taken, and that class is not part of this model, so
        from the constructor alone the pool stays empty. */
    var pool: seq<nat>

    function View(): M.MonitorState
      reads this
    {
      M.MonitorState(scrapTimeout, cache, prevScrapTime, nextScrapTime, started, updateTimer)
    }

    /** A monitor that does not run yet, with an idle timer and an empty
        pool. */
    constructor(scrapTimeout: int)
      ensures View() == M.NewMonitor(scrapTimeout) && pool == []
    {
      this.scrapTimeout := scrapTimeout;
      cache := 0;
      prevScrapTime := 0;
      nextScrapTime := 0;
      started := false;
      updateTimer := M.Idle;
      pool := [];
    }

    /** Start: the monitor runs from now on, and its timer is set to fire at
        once and then every period; a timer that cannot be changed throws,
        though the monitor already counts as running. */
    method Start(timerChanged: bool) returns (r: Result<(), Exception>)
      modifies this
      ensures View() == old(View()).(started := true,
                                     timer := if timerChanged then M.Periodic(0, scrapTimeout) else old(updateTimer))
      ensures r == (if timerChanged then Ok(()) else Err(TimerNotChanged))
      ensures pool == old(pool)
    {
      started := true;
      if !timerChanged {
        return Err(TimerNotChanged);
      }
      updateTimer := M.Periodic(0, scrapTimeout);
      return Ok(());
    }

    /** Stop: the monitor no longer runs, and its timer is idled; a timer
        that cannot be changed throws. */
    method Stop(timerChanged: bool) returns (r: Result<(), Exception>)
      modifies this
      ensures View() == old(View()).(started := false, timer := if timerChanged then M.Idle else old(updateTimer))
      ensures r == (if timerChanged then Ok(()) else Err(TimerNotStopped))
      ensures pool == old(pool)
    {
      started := false;
      if !timerChanged {
        return Err(TimerNotStopped);
      }
      updateTimer := M.Idle;
      return Ok(());
    }

    /** The timer callback, at instant now, with the sampled statistic. */
    method OnTimeout(now: int, sample: Option<int>)
      modifies this
      ensures View() == M.OnTimeout(old(View()), now, sample)
      ensures pool == old(pool)
    {
      if sample.Some? {
        cache := sample.value;
        prevScrapTime := now;
      }
      nextScrapTime := now + scrapTimeout;
    }

    /** GetStatisticsAsync, up to the start of the borrowed source: a source
        the pool retains, or else a new one. */
    method GetStatisticsAsync(made: nat) returns (source: nat)
      modifies this
      ensures old(pool) == [] ==> source == made && pool == []
      ensures old(pool) != [] ==> source in old(pool) && multiset(pool) == multiset(old(pool)) - multiset{source}
      ensures View() == old(View())
    {
      if pool == [] {
        return made;
      }
      source := pool[0];
      assert pool == [source] + pool[1..];
      pool := pool[1..];
    }

    /** Dispose: Stop, then the timer is disposed; when Stop throws, so does
        Dispose, and the timer stays as Stop left it. */
    method Dispose(timerChanged: bool) returns (r: Result<(), Exception>)
      modifies this
      ensures r == (if timerChanged then Ok(()) else Err(TimerNotStopped))
      ensures View() == old(View()).(started := false, timer := if timerChanged then M.Disposed else old(updateTimer))
      ensures pool == old(pool)
    {
      r := Stop(timerChanged);
      if r.Err? {
        return;
      }
      started := false;
      updateTimer := M.Disposed;
    }
  }

  class ManualPcStatisticsValueTaskSource {
    var monitor: ValueTaskSourcePcMonitor?
    var lastMeasurementTime: int
    var cancellationToken: P.CancelToken
    var cachedResult: int
    var exception: Option<Exception>
    var state: Option<StateObject>
    var scheduler: Scheduler
    var continuation: Slot
    var version: Int16
    var ec: Option<ExecContext>
    var timer: P.SourceTimer
    var timerDisposed: bool
    /** Every dispatch so far. */
    var dispatched: seq<Invocation>
    /** The completions delivered in the current version. */
    ghost var completions: nat

    ghost function Snapshot(): P.SourceState
      reads this
    {
      P.SourceState(Core(continuation, state, scheduler, ec, dispatched), version, cachedResult, exception,
                    cancellationToken, monitor != null, lastMeasurementTime, timer, completions)
    }

    /** What the timer callback reads from the monitor: its state, or any
        state when there is no monitor, since none is read then. */
    ghost function MonitorSeen(): M.MonitorState
      reads this, monitor
    {
      if monitor != null then monitor.View() else M.NewMonitor(0)
    }

    constructor()
      ensures Snapshot() == P.Init() && monitor == null && !timerDisposed
    {
      monitor := null;
      lastMeasurementTime := 0;
      cancellationToken := P.NoToken;
      cachedResult := 0;
      exception := None;
      state := None;
      scheduler := NoScheduler;
      continuation := Empty;
      version := 0;
      ec := None;
      timer := P.Disarmed;
      timerDisposed := false;
      dispatched := [];
      completions := 0;
    }

    method Reset()
      modifies this
      ensures Snapshot() == P.Reset(old(Snapshot()))
      ensures monitor == old(monitor) && timerDisposed == old(timerDisposed)
    {
      version := Increment(version);
      cachedResult := 0;
      exception := None;
      state := None;
      continuation := Empty;
      cancellationToken := P.NoToken;
      completions := 0;
    }

    method GetResult(token: Int16) returns (r: Result<int, Exception>)
      modifies this
      ensures P.GetResult(old(Snapshot()), token) == P.Answer(Snapshot(), r)
      ensures monitor == old(monitor) && timerDisposed == old(timerDisposed)
    {
      if token != version {
        return Err(InvalidOperation(MultipleAwaiting));
      }
      if exception.Some? {
        var e := exception.value;
        Reset();
        return Err(e);
      }
      if P.IsCancellationRequested(cancellationToken) {
        Reset();
        return Err(OperationCanceled);
      }
      if cachedResult == 0 {
        return Err(InvalidOperation(NotYetComplete));
      }
      var result := cachedResult;
      Reset();
      return Ok(result);
    }

    method GetStatus(token: Int16) returns (r: Result<Status, Exception>)
      ensures r == P.GetStatus(Snapshot(), token)
    {
      if token != version {
        return Err(InvalidOperation(MultipleAwaiting));
      }
      if P.IsCancellationRequested(cancellationToken) {
        return Ok(Canceled);
      }
      if exception.Some? {
        return Ok(Faulted);
      }
      if cachedResult != 0 {
        return Ok(Succeeded);
      }
      return Ok(Pending);
    }

    method NotifyCompleted()
      modifies this
      ensures Snapshot() == P.Complete(old(Snapshot()))
      ensures monitor == old(monitor) && timerDisposed == old(timerDisposed)
    {
      var previous := continuation;
      if previous.Empty? {
        continuation := Sentinel;
      } else {
        var context := ec;
        ec := None;
        dispatched := dispatched + [Invocation(previous, state, DispatchPathFor(scheduler, false), context)];
      }
      completions := completions + 1;
    }

    method OnCompleted(k: Continuation, st: Option<StateObject>, token: Int16, flags: Flags,
                       captured: Option<ExecContext>, current: Scheduler) returns (r: Result<(), Exception>)
      modifies this
      ensures P.OnCompleted(old(Snapshot()), k, st, token, flags, captured, current) == P.Answer(Snapshot(), r)
      ensures monitor == old(monitor) && timerDisposed == old(timerDisposed)
    {
      if token != version {
        return Err(InvalidOperation(MultipleAwaiting));
      }
      CaptureContexts(flags, captured, current);
      var stored := StoreContinuation(k, st);
      r := if stored then Ok(()) else Err(InvalidOperation(MultipleAwaiting));
    }

    /** The first half of OnCompleted: capture the execution context and the
        scheduler as the flags say. */
    method CaptureContexts(flags: Flags, captured: Option<ExecContext>, current: Scheduler)
      modifies this
      ensures Snapshot() == old(Snapshot()).(core := Capture(old(Snapshot()).core, flags, captured, current))
      ensures monitor == old(monitor) && timerDisposed == old(timerDisposed)
    {
      if flags.flowExecutionContext {
        ec := captured;
      }
      if flags.useSchedulingContext && !current.NoScheduler? {
        scheduler := current;
      }
    }

    /** The second half of OnCompleted: the compare-exchange on the slot. */
    method StoreContinuation(k: Continuation, st: Option<StateObject>) returns (stored: bool)
      modifies this
      ensures (Snapshot().core, stored) == Store(old(Snapshot()).core, k, st)
      ensures Snapshot() == old(Snapshot()).(core := Snapshot().core)
      ensures monitor == old(monitor) && timerDisposed == old(timerDisposed)
    {
      state := st;
      var previous := continuation;
      if previous.Empty? {
        continuation := Stored(k);
        return true;
      }
      state := None;
      if !previous.Sentinel? {
        return false;
      }
      dispatched := dispatched + [Invocation(Stored(k), st, DispatchPathFor(scheduler, true), None)];
      return true;
    }

    method OnTimerTimeout()
      modifies this
      ensures Snapshot() == P.OnTimerTimeout(old(Snapshot()), old(MonitorSeen()))
      ensures monitor == old(monitor) && timerDisposed == old(timerDisposed)
    {
      if P.IsCancellationRequested(cancellationToken) {
        exception := Some(OperationCanceled);
        NotifyCompleted();
        return;
      }
      if monitor == null {
        exception := Some(NullReference);
        NotifyCompleted();
        return;
      }
      var (statistics, lastTime) := M.LastMeasurement(monitor.View());
      lastMeasurementTime := lastTime;
      cachedResult := statistics;
      NotifyCompleted();
    }

    /** The one-shot timer fires, if it is armed. */
    method TimerFires()
      modifies this
      ensures Snapshot() == P.TimerFired(old(Snapshot()), old(MonitorSeen()))
      ensures monitor == old(monitor) && timerDisposed == old(timerDisposed)
    {
      if timer.Armed? {
        timer := P.Disarmed;
        OnTimerTimeout();
      }
    }

    /** The owner of the token cancels it. */
    method RequestCancellation()
      modifies this
      ensures Snapshot() == P.RequestCancellation(old(Snapshot()))
      ensures monitor == old(monitor) && timerDisposed == old(timerDisposed)
    {
      if cancellationToken.Token? {
        cancellationToken := P.Token(true);
      }
    }

    method Start(m: ValueTaskSourcePcMonitor, token: P.CancelToken, now: int, timerChanged: bool)
      returns (r: Result<P.Started, Exception>)
      modifies this
      ensures P.Start(old(Snapshot()), token, m.View(), now, timerChanged) == P.Answer(Snapshot(), r)
      ensures monitor == m && timerDisposed == old(timerDisposed)
    {
      monitor := m;
      cancellationToken := token;
      var actual := M.IsMeasurementActual(m.View(), lastMeasurementTime);
      if actual.Err? {
        return Err(actual.error);
      }
      if actual.value {
        return Ok(P.Completed(cachedResult));
      }
      var sleepTime := M.GetTimeBeforeNextScrap(m.View(), now).value;
      if !timerChanged {
        return Err(TimerNotChanged);
      }
      timer := P.Armed(sleepTime);
      return Ok(P.Bound(version));
    }

    /** Start as evidently intended; see PcStatisticsSources.StartFresh. */
    method StartFresh(m: ValueTaskSourcePcMonitor, token: P.CancelToken, now: int, timerChanged: bool)
      returns (r: Result<P.Started, Exception>)
      modifies this
      ensures P.StartFresh(old(Snapshot()), token, m.View(), now, timerChanged) == P.Answer(Snapshot(), r)
      ensures monitor == m && timerDisposed == old(timerDisposed)
    {
      monitor := m;
      cancellationToken := token;
      var actual := M.IsMeasurementActual(m.View(), lastMeasurementTime);
      if actual.Err? {
        return Err(actual.error);
      }
      if actual.value && m.prevScrapTime != 0 {
        return Ok(P.Completed(m.cache));
      }
      var sleepTime := M.GetTimeBeforeNextScrap(m.View(), now).value;
      if !timerChanged {
        return Err(TimerNotChanged);
      }
      timer := P.Armed(sleepTime);
      return Ok(P.Bound(version));
    }

    /** Dispose: the monitor the source was started with is disposed too,
        then the source's timer. */
    method Dispose(timerChanged: bool) returns (r: Result<(), Exception>)
      modifies this, monitor
      ensures Snapshot() == old(Snapshot()) && monitor == old(monitor)
      ensures old(monitor) != null ==> r == (if timerChanged then Ok(()) else Err(TimerNotStopped))
      ensures old(monitor) != null ==>
                monitor.View() == old(monitor.View()).(started := false,
                                                       timer := if timerChanged then M.Disposed else old(monitor.updateTimer))
      ensures old(monitor) != null ==> monitor.pool == old(monitor.pool)
      ensures timerDisposed == (old(timerDisposed) || r.Ok?)
    {
      r := Ok(());
      if monitor != null {
        r := monitor.Dispose(timerChanged);
        if r.Err? {
          return;
        }
      }
      timerDisposed := true;
    }
  }
}
