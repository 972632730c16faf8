// What the two hand-written IValueTaskSource implementations of the PC
// monitor share: the three-state continuation slot, the scheduler an awaiter
// may capture, and the choice of how a continuation is run. Running a
// continuation is recorded as an Invocation rather than performed; threads,
// execution contexts and schedulers are identities.

module ValueTaskSources {
  import opened Wrappers

  /** A continuation an awaiter registers, by identity. */
  type Continuation = nat

  /** The state object handed over with a continuation, by identity. */
  type StateObject = nat

  /** A captured ExecutionContext, by identity. */
  type ExecContext = nat

  /** The continuation slot: null (nobody waits and nothing completed), the
      completion sentinel (completed before anybody waited), or a registered
      continuation. */
  datatype Slot = Empty | Sentinel | Stored(continuation: Continuation)

  /** The captured scheduler: none, a SynchronizationContext or a
      TaskScheduler. */
  datatype Scheduler = NoScheduler | SyncContext(id: nat) | TaskScheduler(id: nat)

  /** ValueTaskSourceStatus. */
  datatype Status = Pending | Succeeded | Faulted | Canceled

  /** The two ValueTaskSourceOnCompletedFlags the sources look at. */
  datatype Flags = Flags(flowExecutionContext: bool, useSchedulingContext: bool)

  /** The messages of the InvalidOperationExceptions the sources throw. */
  datatype Message = MultipleAwaiting | NotYetComplete | SentinelExpected

  /** The exceptions that reach a caller or are stored for one. */
  datatype Exception =
    | InvalidOperation(message: Message)
    | OperationCanceled
    | NullReference
    | TimerNotChanged
    | MonitorNotStarted
    | TimerNotStopped

  /** How a continuation is run: posted to a SynchronizationContext, started
      as a task on a TaskScheduler, called on the spot, or queued to the
      thread pool. */
  datatype DispatchPath = PostedTo(context: nat) | StartedOn(scheduler: nat) | Inline | QueuedToThreadPool

  /** One run of a continuation (or of the sentinel): what was run, with which
      state object, how, and under which captured execution context. */
  datatype Invocation = Invocation(target: Slot, state: Option<StateObject>, path: DispatchPath, context: Option<ExecContext>)

  /** InvokeContinuation's choice: a captured scheduler wins; without one the
      continuation runs inline when asked to run synchronously, and on the
      thread pool otherwise. */
  function DispatchPathFor(scheduler: Scheduler, synchronously: bool): (p: DispatchPath)
    ensures scheduler.SyncContext? ==> p == PostedTo(scheduler.id)
    ensures scheduler.TaskScheduler? ==> p == StartedOn(scheduler.id)
    ensures scheduler.NoScheduler? ==> (p == Inline <==> synchronously)
    ensures scheduler.NoScheduler? ==> (p == QueuedToThreadPool <==> !synchronously)
    ensures p == Inline ==> synchronously && scheduler.NoScheduler?
  {
    match scheduler
    case SyncContext(id) => PostedTo(id)
    case TaskScheduler(id) => StartedOn(id)
    case NoScheduler => if synchronously then Inline else QueuedToThreadPool
  }

  /** The part of a source's state that the completion protocol touches: the
      slot, the state object, the captured scheduler and execution context,
      and the record of every dispatch so far. */
  datatype Core = Core(slot: Slot, state: Option<StateObject>, scheduler: Scheduler, ec: Option<ExecContext>,
                       dispatched: seq<Invocation>)

  /** NotifyCompleted: an empty slot becomes the sentinel and nothing runs;
      otherwise whatever the slot holds is run, never synchronously, under the
      captured execution context, which is dropped. */
  function Notify(c: Core): (r: Core)
    ensures c.slot.Empty? ==> r == c.(slot := Sentinel)
    ensures !c.slot.Empty? ==> r.slot == c.slot && r.ec.None?
    ensures !c.slot.Empty? ==> r.dispatched == c.dispatched + [Invocation(c.slot, c.state, DispatchPathFor(c.scheduler, false), c.ec)]
    ensures r.scheduler == c.scheduler && r.state == c.state
    ensures |r.dispatched| <= |c.dispatched| + 1 && r.dispatched[..|c.dispatched|] == c.dispatched
    ensures forall i :: |c.dispatched| <= i < |r.dispatched| ==> r.dispatched[i].path != Inline
  {
    if c.slot.Empty? then c.(slot := Sentinel)
    else c.(ec := None, dispatched := c.dispatched + [Invocation(c.slot, c.state, DispatchPathFor(c.scheduler, false), c.ec)])
  }

  /** The scheduler OnCompleted keeps: the current one when the flag asks for
      it and there is one, the one kept before otherwise. */
  function SchedulerAfter(previous: Scheduler, flags: Flags, current: Scheduler): Scheduler {
    if flags.useSchedulingContext && !current.NoScheduler? then current else previous
  }

  /** The contexts OnCompleted captures as the flags say: the execution
      context (which may be none) and the current scheduler. */
  function Capture(c: Core, flags: Flags, captured: Option<ExecContext>, current: Scheduler): Core {
    c.(ec := if flags.flowExecutionContext then captured else c.ec,
       scheduler := SchedulerAfter(c.scheduler, flags, current))
  }

  /** The compare-exchange of OnCompleted: the continuation goes into an empty
      slot; a slot that held the sentinel stays so and the continuation runs
      synchronously on the spot; a slot that held another continuation is
      left alone and the registration is refused (ok is false). */
  function Store(c: Core, continuation: Continuation, state: Option<StateObject>): (r: (Core, bool))
    ensures var (after, ok) := r;
            && after.scheduler == c.scheduler && after.ec == c.ec
            && (c.slot.Empty? ==> ok && after.slot == Stored(continuation) && after.state == state
                                  && after.dispatched == c.dispatched)
            && (c.slot.Stored? ==> !ok && after.slot == c.slot && after.state.None? && after.dispatched == c.dispatched)
            && (c.slot.Sentinel? ==> ok && after.slot == Sentinel && after.state.None?
                                     && after.dispatched == c.dispatched + [Invocation(Stored(continuation), state,
                                          DispatchPathFor(c.scheduler, true), None)])
  {
    if c.slot.Empty? then
      (c.(state := state, slot := Stored(continuation)), true)
    else if !c.slot.Sentinel? then
      (c.(state := None), false)
    else
      var cleared := c.(state := None);
      (cleared.(dispatched := cleared.dispatched + [Invocation(Stored(continuation), state,
                                                      DispatchPathFor(cleared.scheduler, true), None)]), true)
  }

  /** What OnCompleted does once the token has been accepted: capture, then
      compare-exchange. */
  function Register(c: Core, continuation: Continuation, state: Option<StateObject>, flags: Flags,
                    captured: Option<ExecContext>, current: Scheduler): (Core, bool) {
    Store(Capture(c, flags, captured, current), continuation, state)
  }

  /** Neither step ever empties a slot. */
  lemma SlotNeverEmptied(c: Core, continuation: Continuation, state: Option<StateObject>, flags: Flags,
                         captured: Option<ExecContext>, current: Scheduler)
    requires !c.slot.Empty?
    ensures !Notify(c).slot.Empty?
    ensures !Register(c, continuation, state, flags, captured, current).0.slot.Empty?
  {
  }

  const MinInt16: int := -0x8000
  const MaxInt16: int := 0x7FFF

  /** A C# short. */
  type Int16 = x: int | MinInt16 <= x <= MaxInt16

  /** The short increment _version++: unchecked, so it wraps from 32767 to
      -32768. */
  function Increment(v: Int16): (r: Int16)
    ensures r != v
    ensures (r - v - 1) % 0x1_0000 == 0
  {
    if v == MaxInt16 then MinInt16 else v + 1
  }
}
