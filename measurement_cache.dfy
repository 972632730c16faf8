// The measurement cache both PC monitors keep: a periodic timer scrapes a
// statistic every scrap timeout; sources ask whether the measurement they
// saw is still the latest one, and how long to sleep before the next scrape.
// Instants are TimeSpan tick counts; the clock and the random statistic are
// parameters.

module MeasurementCache {
  import opened Wrappers
  import opened ValueTaskSources

  /** TimeSpan.FromMilliseconds(10), in ticks of 100 ns. */
  const Delta: int := 100_000

  /** The monitor's update timer: not running, firing periodically, or
      disposed. */
  datatype UpdateTimer = Idle | Periodic(dueTime: int, period: int) | Disposed

  /** The fields of a monitor: the scrape period, the cached statistic (0 is
      the default PcStatistics, "nothing measured"), when it was scraped, when
      the next scrape is due, whether the monitor runs, and its timer. */
  datatype MonitorState = MonitorState(scrapTimeout: int, cache: int, prevScrapTime: int, nextScrapTime: int,
                                       started: bool, timer: UpdateTimer)

  /** A freshly constructed monitor. */
  function NewMonitor(scrapTimeout: int): (m: MonitorState)
    ensures !m.started && m.timer == Idle && m.cache == 0 && m.prevScrapTime == 0
  {
    MonitorState(scrapTimeout, 0, 0, 0, false, Idle)
  }

  /** LastMeasurement: the statistic and when it was scraped. */
  function LastMeasurement(m: MonitorState): (int, int) {
    (m.cache, m.prevScrapTime)
  }

  /** Every scraped statistic is a real one, in [10, 60); only before the
      first scrape is the cache the default. */
  predicate Measured(m: MonitorState) {
    m.prevScrapTime != 0 ==> 10 <= m.cache < 60
  }

  /** IsMeasurementActual: a running monitor says whether the monitor's last
      scrape is at most 10 ms later than the one a source saved. */
  function IsMeasurementActual(m: MonitorState, saved: int): (r: Result<bool, Exception>)
    ensures r.Err? <==> !m.started
    ensures r.Err? ==> r.error == MonitorNotStarted
    ensures r.Ok? ==> (r.value <==> m.prevScrapTime <= saved + Delta)
  {
    if !m.started then Err(MonitorNotStarted) else Ok(m.prevScrapTime - saved <= Delta)
  }

  /** GetTimeBeforeNextScrap: before the first scrape, one whole period;
      afterwards the time left until the next scrape, or one whole period when
      that time is already over. */
  function GetTimeBeforeNextScrap(m: MonitorState, now: int): (r: Result<int, Exception>)
    ensures r.Err? <==> !m.started
    ensures r.Err? ==> r.error == MonitorNotStarted
    ensures r.Ok? && m.prevScrapTime == 0 ==> r.value == m.scrapTimeout
    ensures r.Ok? && m.prevScrapTime != 0 && now < m.nextScrapTime ==> r.value == m.nextScrapTime - now
    ensures r.Ok? && m.prevScrapTime != 0 && m.nextScrapTime <= now ==> r.value == m.scrapTimeout
  {
    if !m.started then Err(MonitorNotStarted)
    else if m.prevScrapTime == 0 then Ok(m.scrapTimeout)
    else
      var delta := m.nextScrapTime - now;
      Ok(if 0 < delta then delta else m.scrapTimeout)
  }

  /** OnTimeout at instant now: store the sampled statistic and the instant,
      and, in a finally block, schedule the next scrape one period later. A
      sample of None is a sampling that threw: nothing is stored, but the next
      scrape is still scheduled. */
  function OnTimeout(m: MonitorState, now: int, sample: Option<int>): (r: MonitorState)
    ensures r.nextScrapTime == now + m.scrapTimeout
    ensures sample.Some? ==> LastMeasurement(r) == (sample.value, now)
    ensures sample.None? ==> LastMeasurement(r) == LastMeasurement(m)
    ensures r.started == m.started && r.timer == m.timer && r.scrapTimeout == m.scrapTimeout
  {
    var sampled := if sample.Some? then m.(cache := sample.value, prevScrapTime := now) else m;
    sampled.(nextScrapTime := now + m.scrapTimeout)
  }

  /** A monitor that only ever samples statistics in [10, 60) keeps every
      scraped statistic real. */
  lemma OnTimeoutKeepsMeasured(m: MonitorState, now: int, sample: Option<int>)
    requires Measured(m)
    requires sample.Some? ==> 10 <= sample.value < 60
    ensures Measured(OnTimeout(m, now, sample))
  {
  }

  /** The wait a source arms its timer with is positive whenever the scrape
      period is. */
  lemma WaitIsPositive(m: MonitorState, now: int)
    requires m.started && m.scrapTimeout > 0
    ensures GetTimeBeforeNextScrap(m, now).Ok? && GetTimeBeforeNextScrap(m, now).value > 0
  {
  }

  /** After a scrape at instant t, at any later instant the wait is at most
      one period, whether or not the sampling succeeded. */
  lemma WaitAtMostOnePeriod(m: MonitorState, t: int, sample: Option<int>, now: int)
    requires m.started && t <= now
    ensures GetTimeBeforeNextScrap(OnTimeout(m, t, sample), now).Ok?
    ensures GetTimeBeforeNextScrap(OnTimeout(m, t, sample), now).value <= m.scrapTimeout
  {
  }

  /** A source that saved the monitor's scrape instant sees it as actual until
      a scrape more than 10 ms later replaces it. */
  lemma SavedScrapeStaysActual(m: MonitorState, now: int, sample: int)
    requires m.started
    ensures IsMeasurementActual(m, m.prevScrapTime) == Ok(true)
    ensures now <= m.prevScrapTime + Delta ==>
              IsMeasurementActual(OnTimeout(m, now, Some(sample)), m.prevScrapTime) == Ok(true)
    ensures now > m.prevScrapTime + Delta ==>
              IsMeasurementActual(OnTimeout(m, now, Some(sample)), m.prevScrapTime) == Ok(false)
  {
  }
}
