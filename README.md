# Verified model of three habr-posts demos

This project models the sequential core of three demos from the habr-posts
repository and proves properties about each of them in Dafny.

- **PC monitor (ValueTask sources).** A monitor scrapes a PC statistic
  periodically and caches it. Two hand-written `IValueTaskSource`
  implementations hand that statistic to awaiters:
  - `ManualPcStatisticsValueTaskSource` is reusable: `GetResult` resets it
    when it delivers an outcome. No code in the demo pools it or
    starts it a second time.
  - `ManualValueTaskSource` is single-use and draws a random version.

  Each source keeps a version token, a three-state continuation slot
  (null, the completion sentinel, or a registered continuation), a cached
  result whose default means "not ready", a stored exception and a
  cancellation token. The two monitor classes (`ValueTaskSourcePcMonitor`,
  `CustomPcMonitor`) keep the measurement cache. `ConcurrentBagObjectPolicy`
  is a pooled-object policy over a bag, which no other class of the demo
  uses.
- **CRC-32 walkthrough.** A non-reflected CRC over the IEEE 802.3 generator
  0x04C11DB7, with no final XOR, is computed three ways:
  - an "augmented" table algorithm with register 0xFFFFFFFF and four
    trailing zero rounds;
  - a "direct" table algorithm with register 0xC704DD7B;
  - a toy 8-bit bit-by-bit register with polynomial 0x2D.
- **Cinema booking (clean architecture).**
  - Seats are free, booked or bought.
  - A session's seat array is updated in place by `Book` and `Buy`.
  - A seat maps to its database row and back.
  - A console argument parser and a session-interval validator complete it.

How the code is laid out:

- **Pure logic.** Datatypes, functions and lemmas. The protocol of each
  ValueTask source is a state record with one step function per public
  method, timer callback or token cancellation.
- **Code that updates fields or arrays.** Classes and methods with
  `modifies` clauses, proved against those functions. Each method's
  `ensures` ties the new state to the step function applied to the old
  state; the properties are proved about the functions.
- **Loops.** Methods with loop invariants: the CRC computations,
  `FindSeatByPlace`, `BuildSeatsArray` and the pool's `Dispose`.

The things the code depends on but cannot see become parameters:

- the clock (`now`);
- the sampled statistic (`sample`), where `None` stands for sampling that threw;
- `Random.Shared` (`random`);
- whether `Timer.Change` succeeded (`timerChanged`);
- the captured `ExecutionContext` and the current scheduler;
- the object a factory makes (`made`).

`PcStatistics` is one integer whose default 0 means "no result". The
monitor samples values in [10, 60).

Running a continuation is not performed. Each dispatch is appended to a
`dispatched` log as an `Invocation`, which records:

- what was run: the slot content, which may be the sentinel;
- its state object;
- the path: posted to a SynchronizationContext, started on a TaskScheduler,
  inline, or queued to the thread pool;
- the execution context it runs under.

Files:

| file | module |
|---|---|
| `wrappers.dfy` | `Option` and `Result` |
| `value_task_sources.dfy` | `ValueTaskSources`: shared slot, dispatch choice, `NotifyCompleted` and `OnCompleted` core, `short` version increment |
| `measurement_cache.dfy` | `MeasurementCache`: freshness test, wait computation, timer handler |
| `pc_statistics_source.dfy` | `PcStatisticsSources`: the reusable source as steps, with runs over arbitrary step sequences |
| `manual_value_task_source.dfy` | `ManualValueTaskSources`: the single-use source as steps |
| `value_task_source_monitor.dfy` | `ValueTaskSourceMonitor`: classes `ValueTaskSourcePcMonitor` and `ManualPcStatisticsValueTaskSource` |
| `custom_monitor.dfy` | `CustomMonitor`: classes `CustomPcMonitor` and `ManualValueTaskSource` |
| `object_pool.dfy` | `ObjectPools`: class `ConcurrentBagObjectPolicy` |
| `crc.dfy` | `CrcComputer` |
| `seats.dfy`, `session.dfy`, `seat_mapping.dfy`, `command_line.dfy`, `session_interval.dfy` | the booking domain |

## Model

| member | source | states |
|---|---|---|
| `ValueTaskSources.DispatchPathFor` | ivaluetasksource-and-reawait/project/PcMonitor.ValueTaskSource/ManualPcStatisticsValueTaskSource.cs:143-176 | A captured SynchronizationContext gets the continuation posted, and a captured TaskScheduler gets it started. Without a scheduler the continuation runs inline exactly when synchronous is true, and goes to the thread pool exactly when it is false. |
| `ValueTaskSources.Notify` | ivaluetasksource-and-reawait/project/PcMonitor.ValueTaskSource/ManualPcStatisticsValueTaskSource.cs:51-73 | An empty slot takes the sentinel and nothing runs. Otherwise the slot's content is dispatched exactly once, non-synchronously, under the captured execution context, which is then cleared. Earlier dispatches are kept, and nothing added is inline. |
| `ValueTaskSources.Store` | ivaluetasksource-and-reawait/project/PcMonitor.ValueTaskSource/ManualPcStatisticsValueTaskSource.cs:199-213 | This is the compare-exchange of OnCompleted. An empty slot stores the continuation and its state. The sentinel stays, the state is cleared and the continuation is dispatched synchronously. Another continuation is left alone and the call is refused, with nothing dispatched. |
| `ValueTaskSources.SlotNeverEmptied` | ivaluetasksource-and-reawait/project/PcMonitor.CustomValueTaskSource/ManualValueTaskSource.cs:49-185 | Neither NotifyCompleted nor OnCompleted turns a filled slot back to null. |
| `ValueTaskSources.Increment` | ivaluetasksource-and-reawait/project/PcMonitor.ValueTaskSource/ManualPcStatisticsValueTaskSource.cs:112 | `_version++` on a short always yields a different version, equal to the old one plus one modulo 2^16. |
| `MeasurementCache.NewMonitor` | ivaluetasksource-and-reawait/project/PcMonitor.ValueTaskSource/ValueTaskSourcePcMonitor.cs:9-24 | A new monitor is not started, its timer is idle, and both the cache and the last scrape time are zero. |
| `MeasurementCache.IsMeasurementActual` | ivaluetasksource-and-reawait/project/PcMonitor.ValueTaskSource/ValueTaskSourcePcMonitor.cs:44-53 | It throws exactly when the monitor is not started. Otherwise it is true exactly when the last scrape is at most 10 ms (100 000 ticks) after the saved instant, bound inclusive. |
| `MeasurementCache.GetTimeBeforeNextScrap` | ivaluetasksource-and-reawait/project/PcMonitor.ValueTaskSource/ValueTaskSourcePcMonitor.cs:70-92 | It throws exactly when the monitor is not started. Before the first scrape it returns one period; afterwards `next - now` when that is positive, and one period otherwise. |
| `MeasurementCache.OnTimeout` | ivaluetasksource-and-reawait/project/PcMonitor.ValueTaskSource/ValueTaskSourcePcMonitor.cs:55-68 | The next scrape is always due one period after now, even when sampling threw. A sample sets the cache and the scrape time to (sample, now); a failed sampling keeps the last measurement. The lifecycle fields are untouched. |
| `MeasurementCache.OnTimeoutKeepsMeasured` | ivaluetasksource-and-reawait/project/PcMonitor.ValueTaskSource/ValueTaskSourcePcMonitor.cs:58-63 | With samples drawn from [10, 60), every scraped statistic stays in [10, 60). |
| `MeasurementCache.WaitIsPositive` | ivaluetasksource-and-reawait/project/PcMonitor.ValueTaskSource/ValueTaskSourcePcMonitor.cs:76-91 | With a positive period, a started monitor's wait is always positive. |
| `MeasurementCache.WaitAtMostOnePeriod` | ivaluetasksource-and-reawait/project/PcMonitor.ValueTaskSource/ValueTaskSourcePcMonitor.cs:55-92 | After a scrape at instant t, the wait at any instant not before t is at most one period, whether or not the sampling succeeded. |
| `MeasurementCache.SavedScrapeStaysActual` | ivaluetasksource-and-reawait/project/PcMonitor.ValueTaskSource/ValueTaskSourcePcMonitor.cs:44-68 | A saved scrape instant counts as actual. After the next scrape it stays actual exactly when that scrape came at most 10 ms later. |
| `PcStatisticsSources.Init` | ivaluetasksource-and-reawait/project/PcMonitor.ValueTaskSource/ManualPcStatisticsValueTaskSource.cs:15-30 | A new source has an empty slot, no dispatches, version 0, no result, no monitor and a disarmed timer. |
| `PcStatisticsSources.Reset` | ivaluetasksource-and-reawait/project/PcMonitor.ValueTaskSource/ManualPcStatisticsValueTaskSource.cs:110-118 | The version moves to its successor, which differs from it. Result, exception, state, slot and token are cleared. The scheduler, the execution context, the monitor, the saved measurement time and the timer are kept. |
| `PcStatisticsSources.GetResult` | ivaluetasksource-and-reawait/project/PcMonitor.ValueTaskSource/ManualPcStatisticsValueTaskSource.cs:83-119 | A stale token is refused and changes nothing. Then, in order: a stored exception is thrown with a reset; a cancellation is thrown with a reset; no result fails with "not yet complete" and no change (if and only if); otherwise the result is returned with a reset. |
| `PcStatisticsSources.GetStatus` | ivaluetasksource-and-reawait/project/PcMonitor.ValueTaskSource/ManualPcStatisticsValueTaskSource.cs:121-141 | A stale token is refused. Otherwise the status is Canceled, then Faulted, then Succeeded, then Pending, each stated as an if and only if of its condition. |
| `PcStatisticsSources.OnCompleted` | ivaluetasksource-and-reawait/project/PcMonitor.ValueTaskSource/ManualPcStatisticsValueTaskSource.cs:178-222 | A stale token is refused and changes nothing. Otherwise it captures and compare-exchanges, and succeeds exactly when the slot held no continuation. Any failure is "multiple awaiting". |
| `PcStatisticsSources.OnTimerTimeout` | ivaluetasksource-and-reawait/project/PcMonitor.ValueTaskSource/ManualPcStatisticsValueTaskSource.cs:31-49 | A cancelled token stores OperationCanceled. A missing monitor stores NullReference. Otherwise the monitor's last measurement and its time are copied. In every case the source completes exactly once. |
| `PcStatisticsSources.TimerFired` | ivaluetasksource-and-reawait/project/PcMonitor.ValueTaskSource/ManualPcStatisticsValueTaskSource.cs:238 | The one-shot timer runs the callback only when armed, and disarms itself. |
| `PcStatisticsSources.RequestCancellation` | ivaluetasksource-and-reawait/project/PcMonitor.ValueTaskSource/ManualPcStatisticsValueTaskSource.cs:17 | Cancelling marks a real token as cancelled; the default token cannot be cancelled. |
| `PcStatisticsSources.Start` | ivaluetasksource-and-reawait/project/PcMonitor.ValueTaskSource/ManualPcStatisticsValueTaskSource.cs:224-244 | Start keeps the monitor and the token and changes nothing else but the timer. A stopped monitor throws. A fresh measurement returns the cached result at once, with no timer. Otherwise it arms the timer with the monitor's wait and binds the current version, or throws if the timer cannot change. |
| `PcStatisticsSources.StepKeepsSentinelUnrun` | ivaluetasksource-and-reawait/project/PcMonitor.ValueTaskSource/ManualPcStatisticsValueTaskSource.cs:10-13 | Every step keeps two facts, provided the timer fires at most once per version: the sentinel is present only after a completion, and it was never dispatched. |
| `PcStatisticsSources.SentinelNeverRuns` | ivaluetasksource-and-reawait/project/PcMonitor.ValueTaskSource/ManualPcStatisticsValueTaskSource.cs:10-13 | Over any sequence of steps, in any interleaving, with one completion per version, the sentinel is never run. |
| `PcStatisticsSources.SecondCompletionRunsSentinel` | ivaluetasksource-and-reawait/project/PcMonitor.ValueTaskSource/ManualPcStatisticsValueTaskSource.cs:51-73 | Without that assumption it fails: two completions in one version dispatch the sentinel. |
| `PcStatisticsSources.StaleTokenChangesNothing` | ivaluetasksource-and-reawait/project/PcMonitor.ValueTaskSource/ManualPcStatisticsValueTaskSource.cs:75-81 | GetResult, GetStatus and OnCompleted with a stale token are all refused and change nothing. |
| `PcStatisticsSources.SecondGetResultRefused` | ivaluetasksource-and-reawait/project/PcMonitor.ValueTaskSource/ManualPcStatisticsValueTaskSource.cs:110-113 | After GetResult has delivered an outcome, a second call with the same token is refused. |
| `PcStatisticsSources.StatusMatchesResult` | ivaluetasksource-and-reawait/project/PcMonitor.ValueTaskSource/ManualPcStatisticsValueTaskSource.cs:83-141 | GetStatus predicts GetResult: Pending exactly when GetResult fails without change; Succeeded means the result with a reset; Faulted means the exception with a reset; Canceled means a throw with a reset; stale tokens are refused by both. |
| `PcStatisticsSources.CompletionBeforeAwait` | ivaluetasksource-and-reawait/project/PcMonitor.ValueTaskSource/ManualPcStatisticsValueTaskSource.cs:199-213 | When the timer comes first, it leaves the sentinel and dispatches nothing. The next awaiter's continuation is then dispatched once, synchronously: inline without a scheduler, with no execution context. |
| `PcStatisticsSources.AwaitBeforeCompletion` | ivaluetasksource-and-reawait/project/PcMonitor.ValueTaskSource/ManualPcStatisticsValueTaskSource.cs:51-73 | When the awaiter comes first, nothing runs until the timer. The timer then dispatches the continuation once, never inline, under the captured execution context. |
| `PcStatisticsSources.CompletionDeliversMeasurement` | ivaluetasksource-and-reawait/project/PcMonitor.ValueTaskSource/ManualPcStatisticsValueTaskSource.cs:31-49 | When the timer copies a real measurement, the status is Succeeded and GetResult returns the monitor's cache. |
| `PcStatisticsSources.SecondAwaiterRefused` | ivaluetasksource-and-reawait/project/PcMonitor.ValueTaskSource/ManualPcStatisticsValueTaskSource.cs:206-210 | A second awaiter in one version is refused with "multiple awaiting". The first stays registered and nothing runs. |
| `PcStatisticsSources.ReusedSourceReturnsDefault` | ivaluetasksource-and-reawait/project/PcMonitor.ValueTaskSource/ManualPcStatisticsValueTaskSource.cs:229-233 | As written: Start, the timer firing and GetResult return 42. Starting the same source again on the unchanged monitor then returns the default statistic 0. |
| `PcStatisticsSources.StartBeforeFirstScrapeReturnsDefault` | ivaluetasksource-and-reawait/project/PcMonitor.ValueTaskSource/ManualPcStatisticsValueTaskSource.cs:229-233 | As written: Start before the monitor's first scrape returns the default statistic 0 at once. |
| `PcStatisticsSources.StartFresh` | ivaluetasksource-and-reawait/project/PcMonitor.ValueTaskSource/ManualPcStatisticsValueTaskSource.cs:224-244 | The corrected Start returns at once only after a scrape, and then returns the monitor's measurement. Otherwise it arms the timer and binds the version as Start does. |
| `PcStatisticsSources.StartFreshReturnsMeasurement` | ivaluetasksource-and-reawait/project/PcMonitor.ValueTaskSource/ManualPcStatisticsValueTaskSource.cs:229-233 | Anything the corrected Start returns at once is a real statistic in [10, 60). |
| `PcStatisticsSources.StartFreshOnDefectRuns` | ivaluetasksource-and-reawait/project/PcMonitor.ValueTaskSource/ManualPcStatisticsValueTaskSource.cs:229-233 | On the two runs above, the corrected Start returns 42 to the reused source and waits for the first scrape. |
| `ManualValueTaskSources.Init` | ivaluetasksource-and-reawait/project/PcMonitor.CustomValueTaskSource/ManualValueTaskSource.cs:15-31 | A new source has an empty slot, no dispatches, no result, no saved time, no monitor and a disarmed timer. |
| `ManualValueTaskSources.GetResult` | ivaluetasksource-and-reawait/project/PcMonitor.CustomValueTaskSource/ManualValueTaskSource.cs:81-95 | The token is ignored and nothing changes. A stored exception is thrown; otherwise it succeeds exactly when there is a result, fails with "not yet complete" when there is none, and returns the cached result. |
| `ManualValueTaskSources.GetStatus` | ivaluetasksource-and-reawait/project/PcMonitor.CustomValueTaskSource/ManualValueTaskSource.cs:97-113 | A stale token is refused. Otherwise the status is Faulted, then Succeeded, then Pending, each an if and only if; it is never Canceled. |
| `ManualValueTaskSources.OnCompleted` | ivaluetasksource-and-reawait/project/PcMonitor.CustomValueTaskSource/ManualValueTaskSource.cs:150-194 | A stale token is refused and changes nothing. Otherwise it captures and compare-exchanges, and succeeds exactly when the slot held no continuation; the failure is "sentinel expected". |
| `ManualValueTaskSources.OnTimerTimeout` | ivaluetasksource-and-reawait/project/PcMonitor.CustomValueTaskSource/ManualValueTaskSource.cs:32-47 | A missing monitor stores NullReference; otherwise the last measurement and its time are copied. Either way the source completes once. |
| `ManualValueTaskSources.TimerFired` | ivaluetasksource-and-reawait/project/PcMonitor.CustomValueTaskSource/ManualValueTaskSource.cs:209 | The one-shot timer runs the callback only when armed, and disarms itself. |
| `ManualValueTaskSources.Start` | ivaluetasksource-and-reawait/project/PcMonitor.CustomValueTaskSource/ManualValueTaskSource.cs:196-217 | Start keeps the monitor. A stopped monitor throws. A fresh measurement returns the cached result with the version unchanged. A failed timer change throws with the version unchanged. Otherwise it arms the timer and binds a version drawn from [0, 32767). The version changes only on that path. |
| `ManualValueTaskSources.SlotStaysFilled` | ivaluetasksource-and-reawait/project/PcMonitor.CustomValueTaskSource/ManualValueTaskSource.cs:24-27 | Over any sequence of steps, a slot holding the sentinel or a continuation never returns to null. |
| `ManualValueTaskSources.GetResultIgnoresVersion` | ivaluetasksource-and-reawait/project/PcMonitor.CustomValueTaskSource/ManualValueTaskSource.cs:81-95 | GetResult answers the same for every token and changes nothing, while GetStatus refuses a stale token. |
| `ManualValueTaskSources.LateAwaitersRunAtOnce` | ivaluetasksource-and-reawait/project/PcMonitor.CustomValueTaskSource/ManualValueTaskSource.cs:171-185 | After completion, every awaiter finds the sentinel and its continuation is dispatched at once, synchronously; two awaiters give two dispatches. |
| `ManualValueTaskSources.ExactlyOneDispatch` | ivaluetasksource-and-reawait/project/PcMonitor.CustomValueTaskSource/ManualValueTaskSource.cs:49-71 | In both orders of awaiter and timer, the continuation is dispatched exactly once: synchronously if the timer came first, otherwise non-synchronously under the captured execution context. |
| `ManualValueTaskSources.StartBeforeFirstScrapeReturnsDefault` | ivaluetasksource-and-reawait/project/PcMonitor.CustomValueTaskSource/ManualValueTaskSource.cs:200-204 | As written: Start before the monitor's first scrape returns the default statistic 0. |
| `ManualValueTaskSources.StartFresh` | ivaluetasksource-and-reawait/project/PcMonitor.CustomValueTaskSource/ManualValueTaskSource.cs:196-217 | The corrected Start returns at once only after a scrape, with the monitor's measurement. Otherwise it behaves as Start. |
| `ManualValueTaskSources.StartFreshReturnsMeasurement` | ivaluetasksource-and-reawait/project/PcMonitor.CustomValueTaskSource/ManualValueTaskSource.cs:200-204 | The corrected Start's at-once answer is in [10, 60). Before the first scrape it binds a version instead. |
| `ValueTaskSourceMonitor.ValueTaskSourcePcMonitor.constructor` | ivaluetasksource-and-reawait/project/PcMonitor.ValueTaskSource/ValueTaskSourcePcMonitor.cs:19-24 | The fields equal the new-monitor state, and the pool is empty. |
| `ValueTaskSourceMonitor.ValueTaskSourcePcMonitor.Start` | ivaluetasksource-and-reawait/project/PcMonitor.ValueTaskSource/ValueTaskSourcePcMonitor.cs:26-33 | The monitor is started, then the timer is set periodic with due time 0 and period scrapTimeout. A failed change throws, and the monitor still counts as started. |
| `ValueTaskSourceMonitor.ValueTaskSourcePcMonitor.Stop` | ivaluetasksource-and-reawait/project/PcMonitor.ValueTaskSource/ValueTaskSourcePcMonitor.cs:35-42 | The monitor is stopped and the timer idled. A failed change throws, and the monitor is stopped anyway. |
| `ValueTaskSourceMonitor.ValueTaskSourcePcMonitor.OnTimeout` | ivaluetasksource-and-reawait/project/PcMonitor.ValueTaskSource/ValueTaskSourcePcMonitor.cs:55-68 | The new fields are exactly the timer handler's result on the old ones. |
| `ValueTaskSourceMonitor.ValueTaskSourcePcMonitor.GetStatisticsAsync` | ivaluetasksource-and-reawait/project/PcMonitor.ValueTaskSource/ValueTaskSourcePcMonitor.cs:96-100 | The borrow takes a retained source out of the pool, or makes a new one if the pool is empty. |
| `ValueTaskSourceMonitor.ValueTaskSourcePcMonitor.Dispose` | ivaluetasksource-and-reawait/project/PcMonitor.ValueTaskSource/ValueTaskSourcePcMonitor.cs:102-107 | Dispose stops the monitor, then disposes the timer. If Stop throws, Dispose throws with the timer as Stop left it. |
| `ValueTaskSourceMonitor.ManualPcStatisticsValueTaskSource.constructor` | ivaluetasksource-and-reawait/project/PcMonitor.ValueTaskSource/ManualPcStatisticsValueTaskSource.cs:246-249 | The fields equal the new-source state. |
| `ValueTaskSourceMonitor.ManualPcStatisticsValueTaskSource.Reset` | ivaluetasksource-and-reawait/project/PcMonitor.ValueTaskSource/ManualPcStatisticsValueTaskSource.cs:110-118 | The fields become the reset of the old fields. |
| `ValueTaskSourceMonitor.ManualPcStatisticsValueTaskSource.GetResult` | ivaluetasksource-and-reawait/project/PcMonitor.ValueTaskSource/ManualPcStatisticsValueTaskSource.cs:83-119 | The answer and the new fields are GetResult's on the old fields. |
| `ValueTaskSourceMonitor.ManualPcStatisticsValueTaskSource.GetStatus` | ivaluetasksource-and-reawait/project/PcMonitor.ValueTaskSource/ManualPcStatisticsValueTaskSource.cs:121-141 | The status is GetStatus of the fields. |
| `ValueTaskSourceMonitor.ManualPcStatisticsValueTaskSource.NotifyCompleted` | ivaluetasksource-and-reawait/project/PcMonitor.ValueTaskSource/ManualPcStatisticsValueTaskSource.cs:51-73 | The new fields are the old ones after one completion. |
| `ValueTaskSourceMonitor.ManualPcStatisticsValueTaskSource.OnCompleted` | ivaluetasksource-and-reawait/project/PcMonitor.ValueTaskSource/ManualPcStatisticsValueTaskSource.cs:178-222 | The answer and the new fields are OnCompleted's on the old fields. |
| `ValueTaskSourceMonitor.ManualPcStatisticsValueTaskSource.CaptureContexts` | ivaluetasksource-and-reawait/project/PcMonitor.ValueTaskSource/ManualPcStatisticsValueTaskSource.cs:185-194 | The execution context and the scheduler are captured as the flags say. |
| `ValueTaskSourceMonitor.ManualPcStatisticsValueTaskSource.StoreContinuation` | ivaluetasksource-and-reawait/project/PcMonitor.ValueTaskSource/ManualPcStatisticsValueTaskSource.cs:199-213 | The slot, state and dispatch log follow the compare-exchange; nothing else changes. |
| `ValueTaskSourceMonitor.ManualPcStatisticsValueTaskSource.OnTimerTimeout` | ivaluetasksource-and-reawait/project/PcMonitor.ValueTaskSource/ManualPcStatisticsValueTaskSource.cs:31-49 | The new fields are the timer callback's result, reading the monitor the source holds. |
| `ValueTaskSourceMonitor.ManualPcStatisticsValueTaskSource.TimerFires` | ivaluetasksource-and-reawait/project/PcMonitor.ValueTaskSource/ManualPcStatisticsValueTaskSource.cs:238 | An armed timer disarms and runs the callback; a disarmed timer changes nothing. |
| `ValueTaskSourceMonitor.ManualPcStatisticsValueTaskSource.RequestCancellation` | ivaluetasksource-and-reawait/project/PcMonitor.ValueTaskSource/ManualPcStatisticsValueTaskSource.cs:17 | The held token is cancelled, if it can be. |
| `ValueTaskSourceMonitor.ManualPcStatisticsValueTaskSource.Start` | ivaluetasksource-and-reawait/project/PcMonitor.ValueTaskSource/ManualPcStatisticsValueTaskSource.cs:224-244 | The answer and the new fields are Start's on the old fields and the given monitor's state, and the source now holds that monitor. |
| `ValueTaskSourceMonitor.ManualPcStatisticsValueTaskSource.StartFresh` | ivaluetasksource-and-reawait/project/PcMonitor.ValueTaskSource/ManualPcStatisticsValueTaskSource.cs:224-244 | The same for the corrected Start. |
| `ValueTaskSourceMonitor.ManualPcStatisticsValueTaskSource.Dispose` | ivaluetasksource-and-reawait/project/PcMonitor.ValueTaskSource/ManualPcStatisticsValueTaskSource.cs:251-255 | The monitor held, if any, is disposed, and then the timer. A throwing monitor Dispose leaves the timer undisposed. The source's fields and the monitor's pool are unchanged. |
| `CustomMonitor.CustomPcMonitor.constructor` | ivaluetasksource-and-reawait/project/PcMonitor.CustomValueTaskSource/CustomPcMonitor.cs:17-21 | The fields equal the new-monitor state. |
| `CustomMonitor.CustomPcMonitor.Start` | ivaluetasksource-and-reawait/project/PcMonitor.CustomValueTaskSource/CustomPcMonitor.cs:23-30 | The monitor is started and its timer set periodic (0, scrapTimeout). A failed change throws after the monitor is marked started. |
| `CustomMonitor.CustomPcMonitor.Stop` | ivaluetasksource-and-reawait/project/PcMonitor.CustomValueTaskSource/CustomPcMonitor.cs:32-39 | The monitor is stopped and its timer idled. A failed change throws. |
| `CustomMonitor.CustomPcMonitor.OnTimeout` | ivaluetasksource-and-reawait/project/PcMonitor.CustomValueTaskSource/CustomPcMonitor.cs:52-65 | The new fields are exactly the timer handler's result, including the `finally` that schedules the next scrape. |
| `CustomMonitor.CustomPcMonitor.GetStatisticsAsync` | ivaluetasksource-and-reawait/project/PcMonitor.CustomValueTaskSource/CustomPcMonitor.cs:93-97 | Every call returns a freshly allocated source holding this monitor, and the answer is Start's on a new source. |
| `CustomMonitor.CustomPcMonitor.Dispose` | ivaluetasksource-and-reawait/project/PcMonitor.CustomValueTaskSource/CustomPcMonitor.cs:105-110 | Dispose stops the monitor, then disposes the timer. If Stop throws, so does Dispose. |
| `CustomMonitor.ManualValueTaskSource.constructor` | ivaluetasksource-and-reawait/project/PcMonitor.CustomValueTaskSource/ManualValueTaskSource.cs:219-222 | The fields equal the new-source state. |
| `CustomMonitor.ManualValueTaskSource.GetResult` | ivaluetasksource-and-reawait/project/PcMonitor.CustomValueTaskSource/ManualValueTaskSource.cs:81-95 | The answer is GetResult of the fields. |
| `CustomMonitor.ManualValueTaskSource.GetStatus` | ivaluetasksource-and-reawait/project/PcMonitor.CustomValueTaskSource/ManualValueTaskSource.cs:97-113 | The status is GetStatus of the fields. |
| `CustomMonitor.ManualValueTaskSource.NotifyCompleted` | ivaluetasksource-and-reawait/project/PcMonitor.CustomValueTaskSource/ManualValueTaskSource.cs:49-71 | The slot, execution context and dispatch log follow the completion; nothing else changes. |
| `CustomMonitor.ManualValueTaskSource.OnCompleted` | ivaluetasksource-and-reawait/project/PcMonitor.CustomValueTaskSource/ManualValueTaskSource.cs:150-194 | The answer and the new fields are OnCompleted's on the old fields. |
| `CustomMonitor.ManualValueTaskSource.CaptureContexts` | ivaluetasksource-and-reawait/project/PcMonitor.CustomValueTaskSource/ManualValueTaskSource.cs:157-166 | The execution context and the scheduler are captured as the flags say. |
| `CustomMonitor.ManualValueTaskSource.StoreContinuation` | ivaluetasksource-and-reawait/project/PcMonitor.CustomValueTaskSource/ManualValueTaskSource.cs:171-185 | The slot, state and dispatch log follow the compare-exchange; nothing else changes. |
| `CustomMonitor.ManualValueTaskSource.OnTimerTimeout` | ivaluetasksource-and-reawait/project/PcMonitor.CustomValueTaskSource/ManualValueTaskSource.cs:32-47 | The new fields are the timer callback's result, reading the monitor the source holds. |
| `CustomMonitor.ManualValueTaskSource.TimerFires` | ivaluetasksource-and-reawait/project/PcMonitor.CustomValueTaskSource/ManualValueTaskSource.cs:209 | An armed timer disarms and runs the callback; a disarmed timer changes nothing. |
| `CustomMonitor.ManualValueTaskSource.Start` | ivaluetasksource-and-reawait/project/PcMonitor.CustomValueTaskSource/ManualValueTaskSource.cs:196-217 | The answer and the new fields are Start's on the old fields, the monitor's state and the drawn number. |
| `CustomMonitor.ManualValueTaskSource.StartFresh` | ivaluetasksource-and-reawait/project/PcMonitor.CustomValueTaskSource/ManualValueTaskSource.cs:196-217 | The same for the corrected Start. |
| `CustomMonitor.ManualValueTaskSource.Dispose` | ivaluetasksource-and-reawait/project/PcMonitor.CustomValueTaskSource/ManualValueTaskSource.cs:224-228 | The monitor held, if any, is disposed, and then the timer. The source's fields are unchanged. |
| `ObjectPools.ConcurrentBagObjectPolicy.constructor` | ivaluetasksource-and-reawait/project/PcMonitor.ValueTaskSource/ConcurrentBagObjectPolicy.cs:11-14 | The bag starts empty and nothing has been disposed. |
| `ObjectPools.ConcurrentBagObjectPolicy.Create` | ivaluetasksource-and-reawait/project/PcMonitor.ValueTaskSource/ConcurrentBagObjectPolicy.cs:16-24 | A non-empty bag gives up one of its objects and shrinks by exactly that one. An empty bag yields the factory's object and stays empty. |
| `ObjectPools.ConcurrentBagObjectPolicy.Return` | ivaluetasksource-and-reawait/project/PcMonitor.ValueTaskSource/ConcurrentBagObjectPolicy.cs:26-30 | The object is always accepted, and the bag grows by exactly it. |
| `ObjectPools.ConcurrentBagObjectPolicy.Dispose` | ivaluetasksource-and-reawait/project/PcMonitor.ValueTaskSource/ConcurrentBagObjectPolicy.cs:32-39 | Dispose throws exactly when some object in the bag has a throwing Dispose. Without a throw, every object in the bag is disposed once per occurrence (as a multiset) and the bag ends empty. With a throw, the bag is left as it was, and the disposals made come from the bag. Only the last of them threw, and it is the exception returned. |
| `ObjectPools.ReturnedObjectIsReused` | ivaluetasksource-and-reawait/project/PcMonitor.ValueTaskSource/ConcurrentBagObjectPolicy.cs:16-30 | On an empty pool, Return(x) then Create() hands back x and leaves the pool empty. |
| `CrcComputer.TableFirstEntries` | crc32-explanation/Project/Examples/CrcComputer.cs:31-45 | Entry 0 is 0 and entry 1 is the generator 0x04C11DB7. |
| `CrcComputer.TableIsShift32` | crc32-explanation/Project/Examples/CrcComputer.cs:27-48 | Entry i is the byte i clocked 32 times through the shift register. |
| `CrcComputer.ComputeCrcTable` | crc32-explanation/Project/Examples/CrcComputer.cs:27-48 | The nested loops fill a new 256-entry array: entry i is `i << 24` after eight shift-and-conditional-XOR steps. |
| `CrcComputer.TableLookup` | crc32-explanation/Project/Examples/CrcComputer.cs:101-106 | Every index below 256 reads its entry; the register's top byte is such an index. |
| `CrcComputer.DirectStepParts` | crc32-explanation/Project/Examples/CrcComputer.cs:118 | The direct algorithm's index `(register >> 24) ^ b` is below 256. |
| `CrcComputer.ZeroRoundIsShift8` | crc32-explanation/Project/Examples/CrcComputer.cs:104-107 | One zero-byte round of the table equals eight register clocks. |
| `CrcComputer.TableStepIsEightBitSteps` | crc32-explanation/Project/Examples/CrcComputer.cs:101 | One byte step of the simple table algorithm equals eight bitwise shift/XOR steps that feed the byte's bits, most significant first. |
| `CrcComputer.Shift32CommutesWithStep` | crc32-explanation/Project/Examples/CrcComputer.cs:95-122 | Clocking 32 times after an augmented byte step equals a direct byte step on the register clocked 32 times. |
| `CrcComputer.AugmentedFollowsDirect` | crc32-explanation/Project/Examples/CrcComputer.cs:95-122 | The same holds for whole payloads, by induction on the payload. |
| `CrcComputer.ZeroRoundsAreShifts` | crc32-explanation/Project/Examples/CrcComputer.cs:104-107 | n zero-byte rounds equal 8n clocks. |
| `CrcComputer.OptimizedRegisterIsShiftedSimple` | crc32-explanation/Project/Examples/Program.cs:16-23 | 0xFFFFFFFF clocked 32 times is 0xC704DD7B, which is the check ValidateComputedPolynomial makes. |
| `CrcComputer.OptimizedEqualsSimple` | crc32-explanation/Project/Examples/CrcComputer.cs:10-18 | For every payload, the direct algorithm from 0xC704DD7B equals the augmented algorithm from 0xFFFFFFFF. |
| `CrcComputer.EmptyPayload` | crc32-explanation/Project/Examples/CrcComputer.cs:95-122 | On an empty payload, the optimized result is its initial register, and the simple result is 0xFFFFFFFF clocked 32 times. |
| `CrcComputer.ComputeTableSimple` | crc32-explanation/Project/Examples/CrcComputer.cs:95-110 | The loops compute the augmented algorithm followed by four zero rounds. |
| `CrcComputer.ComputeTableOptimized` | crc32-explanation/Project/Examples/CrcComputer.cs:112-122 | The loop computes the direct algorithm from 0xC704DD7B. |
| `CrcComputer.ComputeNewTableValue` | crc32-explanation/Project/Examples/CrcComputer.cs:124-141 | The loop clocks the given register 32 times. |
| `CrcComputer.ByteBitsRoundTrip` | crc32-explanation/Project/Examples/CrcComputer.cs:85-90 | The eight bits the mask loop yields, read back most significant first, are the byte. |
| `CrcComputer.PayloadBitsLayout` | crc32-explanation/Project/Examples/CrcComputer.cs:81-92 | The bit stream has 8 bits per byte, and bit 8i+k is bit k of byte i from the top. |
| `CrcComputer.IterateBits` | crc32-explanation/Project/Examples/CrcComputer.cs:81-92 | The loop yields exactly that bit stream. |
| `CrcComputer.ComputePerBit` | crc32-explanation/Project/Examples/CrcComputer.cs:50-93 | The 8-bit register starts at 0 and takes the payload's bits with polynomial 0x2D, then 8 appended zero bits. |
| `CrcComputer.ZeroPayloadHasZeroChecksum` | crc32-explanation/Project/Examples/CrcComputer.cs:50-93 | An empty or all-zero payload has checksum 0. |
| `Seats.CheckNumber` | clean-architecture/project/src/CinemaBooking.Domain/Seat/Seat.cs:9-16 | A number is accepted exactly when it is at least 1, and kept as given. Otherwise it is refused, naming the number. |
| `Seats.NewFreeSeat` | clean-architecture/project/src/CinemaBooking.Domain/Seat/FreeSeat.cs:5-6 | A free seat is built exactly when the number is at least 1, and it has that number. |
| `Seats.NewBookedSeat` | clean-architecture/project/src/CinemaBooking.Domain/Seat/BookedSeat.cs:10-13 | A booked seat is built exactly when the number is at least 1, and it stores the number and the client. |
| `Seats.NewBoughtSeat` | clean-architecture/project/src/CinemaBooking.Domain/Seat/BoughtSeat.cs:10-13 | A bought seat is built exactly when the number is at least 1, and it stores the number and the client. |
| `Seats.Book` | clean-architecture/project/src/CinemaBooking.Domain/Seat/FreeSeat.cs:8-11 | A free seat always becomes a new BookedSeat(number, client). A seat the client already booked comes back itself, and only that one does. A bought seat, or one booked by another client, is refused, naming the holder. |
| `Seats.Buy` | clean-architecture/project/src/CinemaBooking.Domain/Seat/FreeSeat.cs:13-16 | A free seat always becomes a new BoughtSeat(number, client). It succeeds exactly when the seat is free or held by the same client; a seat the client already bought comes back itself. Otherwise it is refused, naming the holder. |
| `Seats.BookIsIdempotent` | clean-architecture/project/src/CinemaBooking.Domain/Session.cs:86-89 | Booking again for the same client hands the seat back unchanged. |
| `Seats.BuyIsIdempotent` | clean-architecture/project/src/CinemaBooking.Domain/Session.cs:45-48 | Buying again for the same client hands the seat back unchanged. |
| `Seats.TransitionsKeepNumber` | clean-architecture/project/src/CinemaBooking.Domain/Seat/FreeSeat.cs:8-16 | Book and Buy keep the seat number. |
| `Seats.FreeSeatEquals` | clean-architecture/project/src/CinemaBooking.Domain/Seat/FreeSeat.cs:18-26 | True exactly when the other seat is a free seat with the same number; false for null. |
| `Seats.FreeSeatEqualsObject` | clean-architecture/project/src/CinemaBooking.Domain/Seat/FreeSeat.cs:28-31 | Agrees with seat equality on seats; false for null and for non-seats. |
| `Seats.EqualFreeSeatsHashAlike` | clean-architecture/project/src/CinemaBooking.Domain/Seat/FreeSeat.cs:33-36 | Equal free seats have equal hash codes. |
| `Seats.FreeSeatEqualsIsEquivalence` | clean-architecture/project/src/CinemaBooking.Domain/Seat/FreeSeat.cs:18-26 | Free-seat equality is reflexive, symmetric and transitive. |
| `Seats.Accept` | clean-architecture/project/src/CinemaBooking.Domain/Seat/FreeSeat.cs:38-41 | Each seat variant calls its own visit method. |
| `Sessions.FirstNull` | clean-architecture/project/src/CinemaBooking.Domain/Session.cs:17-23 | It finds the first null position, and finds none exactly when there is no null. |
| `Sessions.Values` | clean-architecture/project/src/CinemaBooking.Domain/Session.cs:16 | A null-free collection gives its seats in the same order. |
| `Sessions.Find` | clean-architecture/project/src/CinemaBooking.Domain/Session.cs:68-79 | It finds the first index whose seat has the number, and finds none exactly when no seat has it. |
| `Sessions.SessionBook` | clean-architecture/project/src/CinemaBooking.Domain/Session.cs:90-101 | A missing place is refused with SeatNotFound and changes nothing. Any failure changes nothing. On success the result is BookedSeat(place, client), and exactly the found index is replaced by it. |
| `Sessions.SessionBuyAsWritten` | clean-architecture/project/src/CinemaBooking.Domain/Session.cs:49-61 | As written: a missing place gives SeatNotFound, a success returns BoughtSeat(place, client), and the seats never change. |
| `Sessions.SessionBuy` | clean-architecture/project/src/CinemaBooking.Domain/Session.cs:49-61 | The corrected Buy answers exactly as written, but replaces exactly the found index with the bought seat. |
| `Sessions.FindAfterReplace` | clean-architecture/project/src/CinemaBooking.Domain/Session.cs:68-79 | Replacing the found seat by one with the same number keeps the place at the same index. |
| `Sessions.OperationsKeepSeatsValid` | clean-architecture/project/src/CinemaBooking.Domain/Session.cs:31-33 | Book and Buy keep the number of seats and keep every seat number positive. |
| `Sessions.BookFreeSeat` | clean-architecture/project/tests/CinemaBooking.Domain.Tests/SeatServiceTests.cs:11-22 | Booking a free seat returns BookedSeat(place, client). |
| `Sessions.BookBoughtSeat` | clean-architecture/project/tests/CinemaBooking.Domain.Tests/SeatServiceTests.cs:24-45 | Booking a bought seat is refused with SeatBought naming the buyer, and changes nothing. |
| `Sessions.BookedSeatStaysWithHolder` | clean-architecture/project/src/CinemaBooking.Domain/Session.cs:93-97 | After a booking, booking the place again, by anyone, is refused with SeatBooked naming the holder. |
| `Sessions.DoubleSaleAsWritten` | clean-architecture/project/src/CinemaBooking.Domain/Session.cs:59 | As written, seat 1 of a one-seat session is sold to client 2 and then again to client 3. |
| `Sessions.NoDoubleSale` | clean-architecture/project/src/CinemaBooking.Domain/Session.cs:49-61 | With the corrected Buy, a bought seat cannot be bought by another client, and the refusal names the buyer. |
| `Sessions.Session.constructor` | clean-architecture/project/src/CinemaBooking.Domain/Session.cs:7-11 | The session stores its id and seat array. |
| `Sessions.Session.BuildSeatsArray` | clean-architecture/project/src/CinemaBooking.Domain/Session.cs:13-26 | A null collection is refused. A null seat is refused exactly when one exists, naming the first null position. Otherwise a new array holds the seats in order. |
| `Sessions.Session.Create` | clean-architecture/project/src/CinemaBooking.Domain/Session.cs:7-26 | The same refusals; otherwise a new session with that id and a new array of the seats in order. |
| `Sessions.Session.FindSeatByPlace` | clean-architecture/project/src/CinemaBooking.Domain/Session.cs:68-79 | The loop returns the first matching seat and its index. It reports SeatNotFound exactly when no seat matches. |
| `Sessions.Session.Book` | clean-architecture/project/src/CinemaBooking.Domain/Session.cs:90-101 | The answer and the new array are SessionBook's on the old array. |
| `Sessions.Session.Buy` | clean-architecture/project/src/CinemaBooking.Domain/Session.cs:49-61 | The answer and the new array are those of SessionBuyAsWritten. |
| `Sessions.Session.BuyRecorded` | clean-architecture/project/src/CinemaBooking.Domain/Session.cs:49-61 | The answer and the new array are those of the corrected SessionBuy. |
| `SeatMapping.ToDomainSeat` | clean-architecture/project/src/CinemaBooking.Services/SessionRepository/DatabaseSeat.cs:13-38 | A row decodes exactly when its number is at least 1 and it is Free, or Booked or Bought with a client. Free ignores the client column; Booked and Bought keep the client. A missing client and an unknown type each fail with their own error. |
| `SeatMapping.DecodeIgnoresSession` | clean-architecture/project/src/CinemaBooking.Services/SessionRepository/DatabaseSeat.cs:13-38 | A successful decode does not depend on the session id. |
| `SeatMapping.ToDatabaseSeat` | clean-architecture/project/src/CinemaBooking.Services/SessionRepository/DatabaseSeatMapperSeatVisitor.cs:14-36 | The row carries the visitor's session id, the seat number, the matching type, and the holder as client: null for a free seat. |
| `SeatMapping.RoundTrip` | clean-architecture/project/src/CinemaBooking.Services/SessionRepository/DatabaseSeatMapperSeatVisitor.cs:9-36 | Decoding the row of any valid seat gives the seat back, and never fails. |
| `SeatMapping.EncodeAfterDecode` | clean-architecture/project/src/CinemaBooking.Services/SessionRepository/DatabaseSeat.cs:13-38 | A row that decodes, and has a null client when free, is exactly the encoding of its decoded seat. |
| `CommandLine.OperationOf` | clean-architecture/project/src/CinemaBooking.Console/CommandLineArguments.cs:14-25 | "buy" maps to Buy and "book" to Book exactly when the word equals them ignoring case; any other word maps to nothing. |
| `CommandLine.SameWordSameOperation` | clean-architecture/project/src/CinemaBooking.Console/CommandLineArguments.cs:14-25 | Any two words equal ignoring case read as the same operation, or both as none. |
| `CommandLine.OperationIgnoresCase` | clean-architecture/project/src/CinemaBooking.Console/CommandLineArguments.cs:14-25 | Every word reads as the same operation as its upper-case form. |
| `CommandLine.ParseInt32` | clean-architecture/project/src/CinemaBooking.Console/CommandLineArguments.cs:27-40 | Anything the integer parse accepts fits in 32 bits. |
| `CommandLine.ParseFormat` | clean-architecture/project/src/CinemaBooking.Console/CommandLineArguments.cs:27-40 | Parsing the decimal form of any 32-bit integer gives it back. |
| `CommandLine.ParseInt32Accepts` | clean-architecture/project/src/CinemaBooking.Console/CommandLineArguments.cs:27-40 | For every string, the parse yields n exactly when the trimmed text is an optional sign and one or more digits whose value is n and fits in 32 bits. It refuses exactly the strings with no such reading. |
| `CommandLine.FromCommandLineArguments` | clean-architecture/project/src/CinemaBooking.Console/CommandLineArguments.cs:5-43 | It succeeds exactly when there are four arguments, a known operation and three parsable integers. The result then holds them in positional order. Every failure is InvalidOperation. |
| `CommandLine.ParseWrittenArguments` | clean-architecture/project/src/CinemaBooking.Console/CommandLineArguments.cs:5-43 | A command written out as four arguments parses back to itself. |
| `SessionIntervals.NewSessionInterval` | clean-architecture/project/src/CinemaBooking.Domain/SessionInterval.cs:14-24 | An interval is built exactly when start < end, with both bounds stored as given. Otherwise it is refused, naming the start. |
| `SessionIntervals.EmptyIntervalRefused` | clean-architecture/project/src/CinemaBooking.Domain/SessionInterval.cs:16 | The bound is exclusive: start = end is refused, and one tick is accepted. |

## Left out

- **Concurrency.** Real threads, `Interlocked`, `System.Threading.Timer`, `ExecutionContext.Run`, `SynchronizationContext.Post`, `Task.Factory.StartNew` and `ThreadPool` are not modelled.
  - Each public method, timer callback or token cancellation is one atomic step.
  - Races inside a method, such as a timer firing between `_state = state` and the compare-exchange, are not modelled.
  - Dispatch is recorded as a tag, not performed.
- **The clock, `Random.Shared` and `Timer.Change`.** They are parameters (`now`, `sample`, `random`, `timerChanged`).
- **Timer parameters.** A negative `sleepTime` passed to `Timer.Change` (an ArgumentOutOfRangeException in .NET) is not distinguished from success. The wait is proved positive whenever the period is.
- **The current scheduler.** It may be passed as none. In .NET `TaskScheduler.Current` is never null, so the real case is any `SyncContext` or `TaskScheduler` value.
- **InvokeContinuation's null check.** It is not modelled: no call site passes null. NotifyCompleted reaches it only with a non-null previous value, and OnCompleted only with its own continuation.
- **OnTimerTimeout's catch-all.** It is modelled for the two exceptions the guarded code can raise:
  - cancellation;
  - the missing monitor, with `Debug.Assert` compiled out.
- **Exceptions other than the ones named.** The exception types of the sampling in the monitors' `OnTimeout` are not distinguished: any failure is a `None` sample.
- **`completions`.** This counter in `PcStatisticsSources.SourceState` (ghost in the class) is bookkeeping of the model, used only to state "one completion per version".
- **PcStatisticsValueTaskSource.cs and PcStatisticsManualResetValueTaskSource.cs.** Neither is part of this model. They wrap `ManualResetValueTaskSourceCore`, whose code is not available.
- `ValueTaskSourceMonitor.ValueTaskSourcePcMonitor.GetStatisticsAsync`: it models only the borrow from the pool. Three things are left out:
  - starting the borrowed `PcStatisticsValueTaskSource`, which is not part of this model;
  - that source returning itself to the pool once its result is taken (`pool` is never added to, so from the constructor alone the borrow always makes a new source);
  - the order in which `DefaultObjectPool` hands sources out;
  - the pool's capacity of 10.
- **Disposal order in `ConcurrentBagObjectPolicy.Dispose`.** The bag's enumeration order is not modelled: the loop takes any object still in the bag. Which objects a throwing disposal leaves undisposed therefore depends on that choice.
- **`CustomPcMonitor.GetStatisticsTaskAsync`.** Left out: it is an `await Task.Delay` of the modelled wait followed by a read of the cache.
- **The lazy iterator in ComputePerBit.** `IterateBits` is a method returning the whole bit sequence: the same values in the same order, computed eagerly. Each yielded 0/1 byte is a bool.
- **Booked and bought seat transitions.** `BookedSeat` and `BoughtSeat` do not define `Book` or `Buy` in this revision, though `Session` and `FreeSeat` rely on them. `Seats.Book` and `Seats.Buy` assume the behaviour that the Session documentation comments and the tests describe:
  - a holder re-booking or re-buying gets the same seat back;
  - a booked seat bought by its holder becomes bought;
  - any other holder is refused, naming that holder.
- **`InvariantCultureIgnoreCase` and `int.TryParse`.**
  - Case folding is modelled for ASCII letters only.
  - The parse is modelled for ASCII whitespace, an optional sign and ASCII digits. Culture-specific signs and thousands separators are not modelled.
- **DateTime.** It is its tick count.
- **Seat hash codes.** The hash of a 32-bit `int` is the integer itself.
- **The `Session.Seats` read-only view.** It is the array itself.

## Findings

| source | as written | input that shows it | evidently intended | confidence | as-written member | corrected member |
|---|---|---|---|---|---|---|
| clean-architecture/project/src/CinemaBooking.Domain/Session.cs:59 | `Buy` writes the seat it found back into the array, so the purchase is never recorded | a session with the one free seat 1: client 2 buys it, then client 3 buys it too | store the bought seat, as `Book` stores the booked one | high (not executed) | `Sessions.DoubleSaleAsWritten` | `Sessions.NoDoubleSale` |
| ivaluetasksource-and-reawait/project/PcMonitor.ValueTaskSource/ManualPcStatisticsValueTaskSource.cs:229-233 | after `GetResult` resets the source, `_cachedResult` is cleared but `_lastMeasurementTime` is kept, so the next `Start` on an unchanged monitor returns the default statistic | a caller that starts the same source again: monitor scraped 42 at 5 000 000; Start, timer fires, GetResult returns 42; Start again returns 0 | return a real measurement, e.g. the monitor's cached one | high (not executed) | `PcStatisticsSources.ReusedSourceReturnsDefault` | `PcStatisticsSources.StartFreshOnDefectRuns` |
| ivaluetasksource-and-reawait/project/PcMonitor.ValueTaskSource/ManualPcStatisticsValueTaskSource.cs:230 | before the monitor's first scrape, both the scrape time and the saved time are zero, so the empty cache counts as actual; the same holds in ManualValueTaskSource.cs:201 | a started monitor that has not scraped yet; Start on a new source returns 0 at once | wait for the first scrape | medium (not executed) | `PcStatisticsSources.StartBeforeFirstScrapeReturnsDefault` | `PcStatisticsSources.StartFreshReturnsMeasurement` |
