// The time span of a cinema session. Instants are DateTime values, here
// their tick counts; the constructor refuses an end that is not after the
// start.

module SessionIntervals {
  import opened Wrappers

  datatype SessionInterval = SessionInterval(start: int, end: int)

  /** The ArgumentOutOfRangeException of the constructor, naming the start. */
  datatype IntervalError = StartNotBeforeEnd(start: int)

  /** An interval the constructor lets through. */
  predicate Valid(i: SessionInterval) {
    i.start < i.end
  }

  /** The SessionInterval constructor. */
  function NewSessionInterval(start: int, end: int): (r: Result<SessionInterval, IntervalError>)
    ensures r.Ok? <==> start < end
    ensures r.Ok? ==> r.value.start == start && r.value.end == end && Valid(r.value)
    ensures r.Err? ==> r.error == StartNotBeforeEnd(start)
  {
    if end <= start then Err(StartNotBeforeEnd(start)) else Ok(SessionInterval(start, end))
  }

  /** The bound is exclusive: an interval of no length is refused, one tick is
      enough. */
  lemma EmptyIntervalRefused(t: int)
    ensures NewSessionInterval(t, t).Err?
    ensures NewSessionInterval(t, t + 1) == Ok(SessionInterval(t, t + 1))
  {
  }
}
