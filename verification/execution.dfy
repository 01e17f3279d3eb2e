/** One asynchronous execution and the child process it may own.

The business future runs on its own; the handle's calls `completed` and `abort_and_cleanup` are polled
and may be dropped at every await. Each event below is one stretch between two awaits, so a run is any
interleaving of the future, its auxiliary tasks and the handle, with any call cut off anywhere. */
module Execution {
  import opened Wrappers

  type Kind = string

  /** What a task, a call or a cleanup reports. */
  datatype Completion = Value(value: string) | Panic | TaskAborted | AlreadyCompleted

  datatype CleanupState = Clean | Pending | Failed(kind: Kind)

  /** `child` says that an emergency capability is registered, `auxiliary` which IO tasks have finished. */
  datatype Metadata = Metadata(registered: bool, child: bool, auxiliary: seq<bool>, failure: Option<Kind>)

  /** The guard of the business future around its child. */
  datatype Guard = NoGuard | Unverified | Verified

  /** Where the wait handle of the registered child is: in the guard of the business future, in `returned`,
  or in `recovering`. The last four fields are bookkeeping: the leader was reaped, its cgroup was seen empty, a
  kill was attempted, and the resources themselves are gone. A kill that fails is not reported anywhere. */
  datatype Resources = Resources(
    meta: Metadata, guard: Guard, returned: bool, recovering: bool,
    reaped: bool, emptied: bool, killed: bool, freed: bool)

  datatype Future = Live | Ended(result: Completion)

  /** Where a call of the handle is suspended. `Auxiliary` carries the outcome of the child cleanup. */
  datatype Await = Observing | Locking | Child | Auxiliary(error: Option<Kind>)

  datatype Call = Idle | Completing(at: Await) | Aborting(at: Await, limit: int)

  datatype Handle = Handle(task: bool, result: Option<Completion>, deadline: Option<int>, finished: bool, call: Call,
      dropped: bool)

  /** `log` is bookkeeping: what the calls of `completed` returned, in order. */
  datatype Execution = Execution(
    res: Resources, future: Future, handle: Handle, stop: bool, aborted: bool, log: seq<Completion>)

  const CHILD_CLEANUP_OWNERSHIP: Kind := "child_cleanup_ownership"
  const CHILD_STOP_TIMEOUT_BOUND: Kind := "child_stop_timeout_bound"
  const EXECUTION_ABORT_TIMEOUT: Kind := "execution_abort_timeout"
  const EXECUTION_CLEANUP_TIMEOUT: Kind := "execution_cleanup_timeout"

  function Spawned(): Execution {
    Execution(Resources(Metadata(false, false, [], None), NoGuard, false, false, false, false, false, false),
              Live, Handle(true, None, None, false, Idle, false), false, false, [])
  }

  function StateOf(meta: Metadata): CleanupState {
    if meta.failure.Some? then Failed(meta.failure.value)
    else if meta.child || false in meta.auxiliary then Pending
    else Clean
  }

  // ---------------------------------------------------------------- the business future

  /** `register_child`: the first child of the scope is registered and guarded; a second one is refused,
  and the guard just built for it stops that process. */
  function Register(res: Resources): Resources {
    if res.meta.registered then res
    else res.(meta := res.meta.(registered := true, child := true), guard := Unverified)
  }

  /** `verify_cleanup`: only an exited leader and an empty cgroup retire the capability. */
  function Verify(res: Resources, exited: bool, empty: bool): Resources {
    var seen := res.(reaped := res.reaped || exited);
    if !exited || !empty then seen
    else seen.(meta := res.meta.(child := false), guard := Verified, emptied := true)
  }

  /** `RecoverableChild::drop` with `ChildRegistration::recover`. */
  function DropGuard(res: Resources): Resources {
    if !res.guard.Unverified? then res.(guard := NoGuard)
    else if !res.returned then res.(guard := NoGuard, returned := true)
    else res.(guard := NoGuard, killed := true, meta := res.meta.(failure := Some(CHILD_CLEANUP_OWNERSHIP)))
  }

  // ---------------------------------------------------------------- the handle

  function EmergencyStop(res: Resources): Resources {
    res.(killed := res.killed || res.meta.child)
  }

  /** Keeps the first failure, asks for shutdown and stops the child. */
  function FailCleanup(x: Execution, kind: Kind): Execution {
    var failure := if x.res.meta.failure.Some? then x.res.meta.failure else Some(kind);
    x.(res := EmergencyStop(x.res.(meta := x.res.meta.(failure := failure))), stop := true)
  }

  function Return(x: Execution): Execution {
    x.(handle := x.handle.(call := Idle))
  }

  /** `self.result.take().ok_or(AlreadyCompleted)?` at the end of `completed`. */
  function Deliver(x: Execution): Execution {
    var answer := if x.handle.result.Some? then x.handle.result.value else AlreadyCompleted;
    Return(x.(log := x.log + [answer], handle := x.handle.(result := None)))
  }

  function At(x: Execution, at: Await): Execution {
    x.(handle := x.handle.(call := match x.handle.call
                                   case Idle => Idle
                                   case Completing(_) => Completing(at)
                                   case Aborting(_, limit) => Aborting(at, limit)))
  }

  /** The join of the finished future, which the handle keeps as its result. */
  function Observed(x: Execution, c: Completion): Execution {
    x.(stop := x.stop || !c.Value?, handle := x.handle.(task := false, result := Some(c)))
  }

  /** From the observed end of the future to the first await of the cleanup. */
  function EnterCleanup(x: Execution, now: int, overall: Option<int>): Execution {
    match x.handle.call
    case Idle => x
    case Completing(_) =>
      if x.handle.finished then Deliver(x)
      else if x.handle.deadline.None? && overall.None? then
        Deliver(FailCleanup(x, CHILD_STOP_TIMEOUT_BOUND).(handle := x.handle.(finished := true)))
      else
        var deadline := if x.handle.deadline.Some? then x.handle.deadline else overall;
        At(x.(stop := x.stop || !StateOf(x.res.meta).Clean?, handle := x.handle.(deadline := deadline)), Locking)
    case Aborting(_, limit) =>
      var deadline := if x.handle.deadline.Some? && x.handle.deadline.value < limit then x.handle.deadline.value
                      else limit;
      At(x.(handle := x.handle.(deadline := Some(deadline))), Locking)
  }

  /** The end of `ExecutionHandle::cleanup_until`. */
  function LeaveCleanup(x: Execution, error: Option<Kind>): Execution {
    var y := if error.Some? then FailCleanup(x, error.value) else x;
    match x.handle.call
    case Completing(_) => Deliver(y.(handle := y.handle.(finished := true)))
    case _ => Return(y)
  }

  /** The outcome of polling `RecoveredChild::cleanup`: it succeeds only with the leader reaped and the
  cgroup empty; a failure may still have reaped the leader. */
  datatype ChildPoll = Waiting | Stopped | Unstopped(reaped: bool, kind: Kind)

  function PollObserving(x: Execution, now: int, overall: Option<int>): Execution {
    if x.handle.result.Some? then EnterCleanup(x, now, overall)
    else if !x.handle.task then (if x.handle.call.Completing? then Deliver(x) else EnterCleanup(x, now, overall))
    else if x.future.Ended? then EnterCleanup(Observed(x, x.future.result), now, overall)
    else if x.handle.call.Aborting? && now >= x.handle.call.limit then Return(FailCleanup(x, EXECUTION_ABORT_TIMEOUT))
    else x
  }

  /** Under the lock of `recovering`: take the child out of `returned`, then clean up what is held. */
  function PollLocking(x: Execution): Execution {
    var res := if !x.res.recovering then x.res.(recovering := x.res.returned, returned := false) else x.res;
    if res.recovering then At(x.(res := res), Child)
    else if res.meta.child then At(x.(res := res), Auxiliary(Some(CHILD_CLEANUP_OWNERSHIP)))
    else At(x.(res := res), Auxiliary(None))
  }

  function PollChild(x: Execution, poll: ChildPoll): Execution {
    match poll
    case Waiting => x
    case Stopped =>
      At(x.(res := x.res.(meta := x.res.meta.(child := false), recovering := false, reaped := true, emptied := true)),
         Auxiliary(None))
    case Unstopped(reaped, kind) =>
      At(x.(res := x.res.(reaped := x.res.reaped || reaped)), Auxiliary(Some(kind)))
  }

  predicate PastDeadline(x: Execution, now: int) {
    x.handle.deadline.Some? && now >= x.handle.deadline.value
  }

  /** One poll of the suspended call. `timeout_at` looks at its future before it looks at the clock. */
  function Poll(x: Execution, now: int, overall: Option<int>, poll: ChildPoll): Execution {
    if x.handle.call.Idle? then x
    else
      match x.handle.call.at
      case Observing => PollObserving(x, now, overall)
      case Locking => PollLocking(x)
      case Child =>
        if poll.Waiting? && PastDeadline(x, now) then LeaveCleanup(x, Some(EXECUTION_CLEANUP_TIMEOUT))
        else PollChild(x, poll)
      case Auxiliary(error) =>
        if !(false in x.res.meta.auxiliary) then LeaveCleanup(x, error)
        else if PastDeadline(x, now) then LeaveCleanup(x, Some(EXECUTION_CLEANUP_TIMEOUT))
        else x
  }

  /** `abort_and_cleanup` up to its first await. */
  function BeginAbort(x: Execution, limit: int, stopError: Option<Kind>): Execution {
    var stopped := x.(stop := true, aborted := true, res := EmergencyStop(x.res));
    var y := if stopError.Some? then FailCleanup(stopped, stopError.value) else stopped;
    y.(handle := y.handle.(call := Aborting(Observing, limit)))
  }

  /** `Drop` of the whole handle, which nobody can call any more: what is not known to be clean is stopped, and
  the resources are freed when the future is gone too. */
  function Abandon(x: Execution): Execution {
    var y := Return(x).(handle := Return(x).handle.(dropped := true));
    if x.handle.task || !StateOf(x.res.meta).Clean?
    then y.(res := EmergencyStop(x.res), aborted := x.aborted || x.handle.task) else y
  }

  /** `Drop` of the resources: an emergency stop, then the drop of the children that nobody has cleaned up, each of
  which attempts a kill. */
  function Free(res: Resources): Resources {
    var stopped := EmergencyStop(res);
    stopped.(killed := stopped.killed || res.returned || res.recovering, returned := false, recovering := false,
             freed := true)
  }

  // ---------------------------------------------------------------- runs

  datatype Event =
    | SpawnChild
    | VerifyCleanup(exited: bool, empty: bool)
    | ReleaseGuard
    | SpawnIo
    | FinishIo(io: nat)
    | EndFuture(end: Completion)
    | CallCompleted
    | CallAbort(limit: int, stopError: Option<Kind>)
    | PollCall(now: int, overall: Option<int>, poll: ChildPoll)
    | DropCall
    | DropHandle
    | FreeResources

  /** Events that cannot happen now leave the state alone. A future that ends, in whatever way, drops its
  guard first; it is cancelled only after an abort. */
  function Step(x: Execution, e: Event): Execution {
    match e
    case SpawnChild => if x.future.Live? then x.(res := Register(x.res)) else x
    case VerifyCleanup(exited, empty) =>
      if x.future.Live? && !x.res.guard.NoGuard? then x.(res := Verify(x.res, exited, empty)) else x
    case ReleaseGuard => if x.future.Live? then x.(res := DropGuard(x.res)) else x
    case SpawnIo =>
      if x.future.Live? then x.(res := x.res.(meta := x.res.meta.(auxiliary := x.res.meta.auxiliary + [false]))) else x
    case FinishIo(i) =>
      if i < |x.res.meta.auxiliary| then
        x.(res := x.res.(meta := x.res.meta.(auxiliary := x.res.meta.auxiliary[i := true])))
      else x
    case EndFuture(c) =>
      if x.future.Live? && !c.AlreadyCompleted? && (c.TaskAborted? ==> x.aborted) then
        x.(res := DropGuard(x.res), future := Ended(c), stop := x.stop || c.Panic?)
      else x
    case CallCompleted =>
      if x.handle.call.Idle? && !x.handle.dropped then x.(handle := x.handle.(call := Completing(Observing))) else x
    case CallAbort(limit, stopError) =>
      if x.handle.call.Idle? && !x.handle.dropped then BeginAbort(x, limit, stopError) else x
    case PollCall(now, overall, poll) => Poll(x, now, overall, poll)
    case DropCall => Return(x)
    case DropHandle => if x.handle.dropped then x else Abandon(x)
    case FreeResources =>
      if x.handle.dropped && x.future.Ended? && !x.res.freed then x.(res := Free(x.res)) else x
  }

  function Run(x: Execution, es: seq<Event>): Execution
    decreases es
  {
    if es == [] then x else Run(Step(x, es[0]), es[1..])
  }

  // ---------------------------------------------------------------- the invariant

  /** While its capability is registered and the resources live, an unverified child has exactly one owner;
  afterwards it has none, and it was reaped with an empty cgroup. With the resources its owner is gone, and then a
  kill of the child was attempted. */
  ghost predicate ChildOk(res: Resources) {
    && (res.meta.child ==>
          && res.meta.registered
          && (if res.freed then res.killed else res.guard.Unverified? || res.returned || res.recovering)
          && !(res.guard.Unverified? && res.returned) && !(res.guard.Unverified? && res.recovering)
          && !(res.returned && res.recovering)
          && !res.guard.Verified?)
    && (!res.meta.child || res.freed ==> !res.guard.Unverified? && !res.returned && !res.recovering)
    && (res.meta.registered && !res.meta.child ==> res.reaped && res.emptied)
    && (!res.meta.registered ==> res.guard.NoGuard?)
  }

  /** The handle's result is the end of the future, delivered first and once. */
  ghost predicate ResultOk(x: Execution) {
    var h := x.handle;
    && (h.task ==> h.result.None? && x.log == [])
    && (!h.task ==> x.future.Ended?)
    && (x.future.Ended? ==> !x.future.result.AlreadyCompleted?)
    && (h.result.Some? ==> h.result.value == x.future.result && x.log == [])
    && (!h.task && h.result.None? ==> x.log != [] && x.log[0] == x.future.result)
    && (forall i | 1 <= i < |x.log| :: x.log[i] == AlreadyCompleted)
    && (x.log != [] ==> h.finished)
  }

  /** Cleanup runs only after the future has ended, so nothing is guarded any more. */
  ghost predicate CallOk(x: Execution) {
    var h := x.handle;
    && (x.future.Ended? ==> x.res.guard.NoGuard?)
    && (x.res.freed ==> h.dropped && x.future.Ended?)
    && (!h.call.Idle? && !h.call.at.Observing? ==> x.future.Ended? && !h.task && h.deadline.Some?)
    && (h.call.Completing? && !h.call.at.Observing? ==> h.result.Some?)
    && (!h.call.Idle? && h.call.at.Child? ==> x.res.recovering && x.res.meta.child)
    && (!h.call.Idle? && h.call.at.Auxiliary? && h.call.at.error.None? ==> !x.res.meta.child)
    && (h.finished ==> h.result.Some? || x.log != [])
  }

  /** A failure of any kind asks the worker to stop, and so does an end that leaves something behind. */
  ghost predicate StopOk(x: Execution) {
    var h := x.handle;
    && (x.res.meta.failure.Some? ==> x.stop)
    && (!h.task && !x.stop ==> x.future.Ended? && x.future.result.Value?)
    && (h.finished && !x.stop ==> StateOf(x.res.meta).Clean?)
    && (h.call.Completing? && !h.call.at.Observing? && !x.stop ==> StateOf(x.res.meta).Clean?)
    && (h.call.Aborting? ==> x.stop)
    && (x.aborted && !h.dropped ==> x.stop)
    && (h.dropped ==> h.call.Idle?)
  }

  ghost predicate Inv(x: Execution) { ChildOk(x.res) && ResultOk(x) && CallOk(x) && StopOk(x) }

  /** What no event takes back. */
  ghost predicate NeverWorse(x: Execution, y: Execution) {
    && (x.res.meta.failure.Some? ==> y.res.meta.failure == x.res.meta.failure)
    && (x.handle.deadline.Some? ==> y.handle.deadline.Some? && y.handle.deadline.value <= x.handle.deadline.value)
    && (x.stop ==> y.stop)
    && (x.future.Ended? ==> y.future == x.future)
    && x.log <= y.log
    && (x.res.meta.registered ==> y.res.meta.registered && (!x.res.meta.child ==> !y.res.meta.child))
    && (x.res.freed ==> y.res.freed)
  }

  // ---------------------------------------------------------------- one step

  lemma NeverWorseComposes(x: Execution, y: Execution, z: Execution)
    requires NeverWorse(x, y) && NeverWorse(y, z)
    ensures NeverWorse(x, z)
  {
  }

  lemma FailCleanupKeeps(x: Execution, kind: Kind)
    requires Inv(x)
    ensures Inv(FailCleanup(x, kind)) && NeverWorse(x, FailCleanup(x, kind))
  {
  }

  lemma DeliverKeeps(x: Execution)
    requires Inv(x) && !x.handle.task && x.handle.finished
    ensures Inv(Deliver(x)) && NeverWorse(x, Deliver(x))
  {
  }

  lemma ObservedKeeps(x: Execution)
    requires Inv(x) && x.handle.task && x.future.Ended?
    ensures var y := Observed(x, x.future.result);
            Inv(y) && NeverWorse(x, y) && !y.handle.task && y.handle.result.Some? && y.handle.call == x.handle.call
  {
  }

  lemma LeaveCleanupKeeps(x: Execution, error: Option<Kind>)
    requires Inv(x) && !x.handle.call.Idle? && !x.handle.call.at.Observing?
    ensures Inv(LeaveCleanup(x, error)) && NeverWorse(x, LeaveCleanup(x, error))
  {
    if error.Some? {
      FailCleanupKeeps(x, error.value);
    }
  }

  lemma EnterCleanupKeeps(x: Execution, now: int, overall: Option<int>)
    requires Inv(x) && !x.handle.call.Idle? && !x.handle.task
    requires x.handle.call.Completing? ==> x.handle.result.Some?
    ensures Inv(EnterCleanup(x, now, overall)) && NeverWorse(x, EnterCleanup(x, now, overall))
  {
    FailCleanupKeeps(x, CHILD_STOP_TIMEOUT_BOUND);
  }

  lemma PollObservingKeeps(x: Execution, now: int, overall: Option<int>)
    requires Inv(x) && !x.handle.call.Idle? && x.handle.call.at.Observing?
    ensures Inv(PollObserving(x, now, overall)) && NeverWorse(x, PollObserving(x, now, overall))
  {
    if x.handle.result.Some? || (!x.handle.task && !x.handle.call.Completing?) {
      hide EnterCleanup;
      EnterCleanupKeeps(x, now, overall);
    } else if x.handle.task && x.future.Ended? {
      var y := Observed(x, x.future.result);
      hide EnterCleanup, Observed, Inv, NeverWorse;
      ObservedKeeps(x);
      EnterCleanupKeeps(y, now, overall);
      NeverWorseComposes(x, y, EnterCleanup(y, now, overall));
    } else if x.handle.task {
      hide EnterCleanup, Deliver;
      FailCleanupKeeps(x, EXECUTION_ABORT_TIMEOUT);
    } else {
      hide EnterCleanup;
      DeliverKeeps(x);
    }
  }

  lemma PollChildKeeps(x: Execution, poll: ChildPoll)
    requires Inv(x) && !x.handle.call.Idle? && x.handle.call.at.Child?
    ensures Inv(PollChild(x, poll)) && NeverWorse(x, PollChild(x, poll))
  {
  }

  lemma PollLockingKeeps(x: Execution)
    requires Inv(x) && !x.handle.call.Idle? && x.handle.call.at.Locking?
    ensures Inv(PollLocking(x)) && NeverWorse(x, PollLocking(x))
  {
  }

  lemma PollKeeps(x: Execution, now: int, overall: Option<int>, poll: ChildPoll)
    requires Inv(x)
    ensures Inv(Poll(x, now, overall, poll)) && NeverWorse(x, Poll(x, now, overall, poll))
  {
    hide PollObserving, PollLocking, PollChild, LeaveCleanup;
    if !x.handle.call.Idle? {
      match x.handle.call.at
      case Observing => PollObservingKeeps(x, now, overall);
      case Locking => PollLockingKeeps(x);
      case Child =>
        PollChildKeeps(x, poll);
        LeaveCleanupKeeps(x, Some(EXECUTION_CLEANUP_TIMEOUT));
      case Auxiliary(error) =>
        LeaveCleanupKeeps(x, error);
        LeaveCleanupKeeps(x, Some(EXECUTION_CLEANUP_TIMEOUT));
    }
  }

  /** What the business future does to its own child. */
  lemma ChildEventKeeps(x: Execution, res: Resources)
    requires Inv(x) && x.future.Live?
    requires res == Register(x.res) || res == DropGuard(x.res)
             || exists exited, empty :: !x.res.guard.NoGuard? && res == Verify(x.res, exited, empty)
    ensures Inv(x.(res := res)) && NeverWorse(x, x.(res := res))
    ensures res == DropGuard(x.res) ==> res.guard.NoGuard?
  {
  }

  lemma EndFutureKeeps(x: Execution, c: Completion)
    requires Inv(x) && x.future.Live? && !c.AlreadyCompleted? && (c.TaskAborted? ==> x.aborted)
    ensures Inv(Step(x, EndFuture(c))) && NeverWorse(x, Step(x, EndFuture(c)))
  {
    hide Poll, DropGuard, Register, Verify, BeginAbort;
    ChildEventKeeps(x, DropGuard(x.res));
  }

  lemma BeginAbortKeeps(x: Execution, limit: int, stopError: Option<Kind>)
    requires Inv(x) && x.handle.call.Idle? && !x.handle.dropped
    ensures Inv(BeginAbort(x, limit, stopError)) && NeverWorse(x, BeginAbort(x, limit, stopError))
  {
  }

  /** The IO tasks, and the ends of calls. */
  lemma SmallStepKeeps(x: Execution, e: Event)
    requires Inv(x) && (e.SpawnIo? || e.FinishIo? || e.CallCompleted? || e.DropCall?)
    ensures Inv(Step(x, e)) && NeverWorse(x, Step(x, e))
  {
  }

  lemma EmergencyStopKeeps(x: Execution)
    requires Inv(x)
    ensures var y := x.(res := EmergencyStop(x.res)); Inv(y) && NeverWorse(x, y)
  {
  }

  lemma LastReturnKeeps(x: Execution)
    requires Inv(x)
    ensures var y := x.(handle := x.handle.(call := Idle, dropped := true));
            Inv(y) && NeverWorse(x, y) && Inv(y.(aborted := true)) && NeverWorse(x, y.(aborted := true))
  {
  }

  lemma FreeKeeps(x: Execution)
    requires Inv(x)
    ensures Inv(Step(x, FreeResources)) && NeverWorse(x, Step(x, FreeResources))
  {
  }

  lemma AbandonKeeps(x: Execution)
    requires Inv(x)
    ensures Inv(Abandon(x)) && NeverWorse(x, Abandon(x))
  {
    LastReturnKeeps(x);
    var y := x.(handle := x.handle.(call := Idle, dropped := true));
    var z := y.(aborted := x.aborted || x.handle.task);
    hide Inv, NeverWorse, EmergencyStop;
    assert z == y || z == y.(aborted := true);
    EmergencyStopKeeps(z);
    NeverWorseComposes(x, z, z.(res := EmergencyStop(z.res)));
  }

  lemma LeaveCleanupDropsNothing(x: Execution, error: Option<Kind>)
    ensures LeaveCleanup(x, error).handle.dropped == x.handle.dropped
  {
  }

  lemma EnterCleanupDropsNothing(x: Execution, now: int, overall: Option<int>)
    ensures EnterCleanup(x, now, overall).handle.dropped == x.handle.dropped
  {
    hide StateOf, EmergencyStop;
  }

  lemma ObservingDropsNothing(x: Execution, now: int, overall: Option<int>)
    ensures PollObserving(x, now, overall).handle.dropped == x.handle.dropped
  {
    EnterCleanupDropsNothing(x, now, overall);
    if x.future.Ended? {
      EnterCleanupDropsNothing(Observed(x, x.future.result), now, overall);
    }
    hide EnterCleanup;
  }

  lemma LockingDropsNothing(x: Execution)
    ensures PollLocking(x).handle.dropped == x.handle.dropped
  {
  }

  lemma ChildDropsNothing(x: Execution, poll: ChildPoll)
    ensures PollChild(x, poll).handle.dropped == x.handle.dropped
  {
  }

  lemma PollDropsNothing(x: Execution, now: int, overall: Option<int>, poll: ChildPoll)
    ensures Poll(x, now, overall, poll).handle.dropped == x.handle.dropped
  {
    hide PollObserving, PollLocking, PollChild, LeaveCleanup, StateOf;
    ObservingDropsNothing(x, now, overall);
    LockingDropsNothing(x);
    ChildDropsNothing(x, poll);
    LeaveCleanupDropsNothing(x, Some(EXECUTION_CLEANUP_TIMEOUT));
    if !x.handle.call.Idle? && x.handle.call.at.Auxiliary? {
      LeaveCleanupDropsNothing(x, x.handle.call.at.error);
    }
  }

  /** A handle is dropped by its owner only. */
  lemma OnlyDropHandleDrops(x: Execution, e: Event)
    requires !e.DropHandle?
    ensures Step(x, e).handle.dropped == x.handle.dropped
  {
    if e.PollCall? {
      PollDropsNothing(x, e.now, e.overall, e.poll);
    }
    hide Poll;
  }

  lemma Unmoved(x: Execution)
    ensures NeverWorse(x, x)
  {
  }

  lemma StepKeeps(x: Execution, e: Event)
    requires Inv(x)
    ensures Inv(Step(x, e)) && NeverWorse(x, Step(x, e))
  {
    Unmoved(x);
    hide Inv, NeverWorse, Poll, DropGuard, Register, Verify, BeginAbort;
    match e
    case SpawnChild =>
      if x.future.Live? { ChildEventKeeps(x, Register(x.res)); }
    case VerifyCleanup(exited, empty) =>
      if x.future.Live? && !x.res.guard.NoGuard? { ChildEventKeeps(x, Verify(x.res, exited, empty)); }
    case ReleaseGuard =>
      if x.future.Live? { ChildEventKeeps(x, DropGuard(x.res)); }
    case EndFuture(c) =>
      if x.future.Live? && !c.AlreadyCompleted? && (c.TaskAborted? ==> x.aborted) { EndFutureKeeps(x, c); }
    case CallAbort(limit, stopError) =>
      if x.handle.call.Idle? && !x.handle.dropped { BeginAbortKeeps(x, limit, stopError); }
    case PollCall(now, overall, poll) => PollKeeps(x, now, overall, poll);
    case DropHandle => AbandonKeeps(x);
    case FreeResources => FreeKeeps(x);
    case _ => SmallStepKeeps(x, e);
  }

  lemma {:induction false} RunKeeps(x: Execution, es: seq<Event>)
    requires Inv(x)
    ensures Inv(Run(x, es))
    decreases es
  {
    if es != [] {
      StepKeeps(x, es[0]);
      RunKeeps(Step(x, es[0]), es[1..]);
    }
  }

  // ---------------------------------------------------------------- whole runs

  /** How many owners hold the unverified child. */
  function Owners(res: Resources): nat {
    (if res.guard.Unverified? then 1 else 0) + (if res.returned then 1 else 0) + (if res.recovering then 1 else 0)
  }

  /** The wait handle is conserved: through panics, cancelled futures and calls dropped anywhere, the child has one
  owner until its cleanup is verified and none afterwards. It loses its owner in one other way only, with the
  resources, which needs a dropped handle and an ended future; then a kill of the child was attempted. */
  lemma ChildIsConserved(es: seq<Event>)
    ensures var res := Run(Spawned(), es).res;
            && (Owners(res) == if res.meta.child && !res.freed then 1 else 0)
            && (res.meta.registered && !res.meta.child ==> res.reaped && res.emptied)
            && (res.freed ==> Run(Spawned(), es).handle.dropped && Run(Spawned(), es).future.Ended?)
            && (res.freed && res.meta.child ==> res.killed)
  {
    RunKeeps(Spawned(), es);
  }

  /** Nothing of the execution is left: the child it may have had was reaped and its cgroup seen empty, no
  wait handle is held, and every auxiliary task has finished. */
  predicate Gone(res: Resources) {
    && Owners(res) == 0
    && (res.meta.registered ==> res.reaped && res.emptied)
    && forall i | 0 <= i < |res.meta.auxiliary| :: res.meta.auxiliary[i]
  }

  lemma CleanIsGone(x: Execution)
    requires Inv(x) && StateOf(x.res.meta) == Clean
    ensures Gone(x.res)
  {
  }

  /** A clean execution has nothing left running: its child, if it ever had one, was reaped with its
  cgroup seen empty, and every auxiliary task has finished. */
  lemma CleanMeansGone(es: seq<Event>)
    requires StateOf(Run(Spawned(), es).res.meta) == Clean
    ensures Gone(Run(Spawned(), es).res)
  {
    RunKeeps(Spawned(), es);
    CleanIsGone(Run(Spawned(), es));
  }

  /** The domain result reaches the caller at most once, first, and unchanged: a failed or timed-out
  cleanup is never returned in its place, and later calls only learn that it is gone. */
  lemma ResultIsDeliveredOnce(es: seq<Event>)
    ensures var x := Run(Spawned(), es);
            && (x.log != [] ==> x.future == Ended(x.log[0]) && !x.log[0].AlreadyCompleted?)
            && (forall i | 1 <= i < |x.log| :: x.log[i] == AlreadyCompleted)
  {
    RunKeeps(Spawned(), es);
  }

  /** Along every run the first recorded failure stays, the cleanup deadline only moves forward in time,
  a shutdown request is not withdrawn, the delivered results stand, and a retired child stays retired. */
  lemma {:induction false} RunIsNeverWorse(x: Execution, es: seq<Event>)
    requires Inv(x)
    ensures NeverWorse(x, Run(x, es))
    decreases es
  {
    hide Step, Inv;
    if es != [] {
      var y := Step(x, es[0]);
      StepKeeps(x, es[0]);
      RunIsNeverWorse(y, es[1..]);
      NeverWorseComposes(x, y, Run(y, es[1..]));
    }
  }

  /** What a new failure does to a child that is still registered. */
  predicate Kills(x: Execution, y: Execution) {
    x.res.meta.failure.None? && y.res.meta.failure.Some? && y.res.meta.child ==> y.res.killed
  }

  lemma LeaveCleanupKills(x: Execution, error: Option<Kind>)
    ensures Kills(x, LeaveCleanup(x, error))
  {
  }

  lemma EnterCleanupKills(x: Execution, now: int, overall: Option<int>)
    ensures Kills(x, EnterCleanup(x, now, overall))
  {
  }

  lemma ObservingKills(x: Execution, now: int, overall: Option<int>)
    ensures Kills(x, PollObserving(x, now, overall))
  {
    EnterCleanupKills(x, now, overall);
    if x.future.Ended? {
      EnterCleanupKills(Observed(x, x.future.result), now, overall);
    }
    hide EnterCleanup;
  }

  lemma PollKills(x: Execution, now: int, overall: Option<int>, poll: ChildPoll)
    ensures Kills(x, Poll(x, now, overall, poll))
  {
    if !x.handle.call.Idle? {
      match x.handle.call.at {
        case Observing =>
          ObservingKills(x, now, overall);
        case Locking =>
        case Child =>
          LeaveCleanupKills(x, Some(EXECUTION_CLEANUP_TIMEOUT));
          hide LeaveCleanup;
        case Auxiliary(error) =>
          LeaveCleanupKills(x, Some(EXECUTION_CLEANUP_TIMEOUT));
          LeaveCleanupKills(x, error);
          hide LeaveCleanup;
      }
    }
    hide PollObserving, LeaveCleanup;
  }

  lemma BeginAbortKills(x: Execution, limit: int, stopError: Option<Kind>)
    ensures BeginAbort(x, limit, stopError).res.meta.child ==> BeginAbort(x, limit, stopError).res.killed
  {
  }

  lemma DropKills(x: Execution)
    ensures Kills(x, Abandon(x)) && (Abandon(x).res.meta.child ==> Abandon(x).res.killed)
    ensures var freed := x.(res := Free(x.res)); Kills(x, freed) && (freed.res.meta.child ==> freed.res.killed)
  {
  }

  /** Whenever a failure is recorded, an abort begins, or the handle or its resources are dropped, a kill of the
  child that is still registered is attempted there and then. */
  lemma FailureKillsTheChild(x: Execution, e: Event)
    ensures Kills(x, Step(x, e))
    ensures e.CallAbort? && x.handle.call.Idle? && !x.handle.dropped && Step(x, e).res.meta.child ==>
              Step(x, e).res.killed
    ensures e.DropHandle? && !x.handle.dropped && Step(x, e).res.meta.child ==> Step(x, e).res.killed
    ensures e.FreeResources? && Step(x, e).res.freed && !x.res.freed && Step(x, e).res.meta.child ==>
              Step(x, e).res.killed
  {
    match e
    case PollCall(now, overall, poll) =>
      PollKills(x, now, overall, poll);
      hide Poll;
    case CallAbort(limit, stopError) =>
      BeginAbortKills(x, limit, stopError);
      hide BeginAbort;
    case DropHandle =>
      DropKills(x);
      hide Abandon;
    case FreeResources =>
      DropKills(x);
      hide Kills;
    case _ =>
  }

  /** A task that panicked or was aborted, and a completion that leaves anything behind, stop the worker. */
  lemma UncleanEndStopsTheWorker(es: seq<Event>)
    ensures var x := Run(Spawned(), es);
            && (x.log != [] && !x.log[0].Value? ==> x.stop)
            && (x.log != [] && StateOf(x.res.meta) != Clean ==> x.stop)
            && (x.res.meta.failure.Some? ==> x.stop)
  {
    RunKeeps(Spawned(), es);
  }

  lemma LeaveCleanupReturns(x: Execution, error: Option<Kind>)
    ensures LeaveCleanup(x, error).handle.call.Idle?
  {
  }

  lemma AtMoves(x: Execution, at: Await)
    requires !x.handle.call.Idle?
    ensures var y := At(x, at); !y.handle.call.Idle? && y.handle.call.at == at && y.handle.deadline == x.handle.deadline
  {
  }

  lemma LockingMovesOn(x: Execution, now: int)
    requires !x.handle.call.Idle? && PastDeadline(x, now)
    ensures var y := PollLocking(x);
            !y.handle.call.Idle? && (y.handle.call.at.Child? || y.handle.call.at.Auxiliary?) && PastDeadline(y, now)
  {
    var res := if !x.res.recovering then x.res.(recovering := x.res.returned, returned := false) else x.res;
    AtMoves(x.(res := res), Child);
    AtMoves(x.(res := res), Auxiliary(Some(CHILD_CLEANUP_OWNERSHIP)));
    AtMoves(x.(res := res), Auxiliary(None));
    hide At;
  }

  lemma ChildMovesOn(x: Execution, now: int, poll: ChildPoll)
    requires !x.handle.call.Idle? && PastDeadline(x, now) && !poll.Waiting?
    ensures var y := PollChild(x, poll); !y.handle.call.Idle? && y.handle.call.at.Auxiliary? && PastDeadline(y, now)
  {
  }

  lemma PollsTowardsItsEnd(x: Execution, now: int, overall: Option<int>, poll: ChildPoll)
    requires !x.handle.call.Idle? && !x.handle.call.at.Observing? && PastDeadline(x, now)
    ensures var y := Poll(x, now, overall, poll);
            || y.handle.call.Idle?
            || (PastDeadline(y, now) && match x.handle.call.at
                         case Locking => y.handle.call.at.Child? || y.handle.call.at.Auxiliary?
                         case Child => y.handle.call.at.Auxiliary?
                         case _ => false)
  {
    LockingMovesOn(x, now);
    if !poll.Waiting? {
      ChildMovesOn(x, now, poll);
    }
    LeaveCleanupReturns(x, Some(EXECUTION_CLEANUP_TIMEOUT));
    if x.handle.call.at.Auxiliary? {
      LeaveCleanupReturns(x, x.handle.call.at.error);
    }
    hide LeaveCleanup, PollLocking, PollChild, PollObserving;
  }

  /** A call polled again and again at one instant. */
  function Polls(x: Execution, now: int, overall: Option<int>, polls: seq<ChildPoll>): Execution
    decreases polls
  {
    if polls == [] then x else Polls(Poll(x, now, overall, polls[0]), now, overall, polls[1..])
  }

  function PollsLeft(at: Await): nat {
    match at
    case Observing => 4
    case Locking => 3
    case Child => 2
    case Auxiliary(_) => 1
  }

  /** Once the future has ended and the deadline of its cleanup has passed, a call returns within three
  polls, whatever the child and the auxiliary tasks do. */
  lemma {:induction false} CleanupEndsAtItsDeadline(x: Execution, now: int, overall: Option<int>, polls: seq<ChildPoll>)
    requires Inv(x)
    requires !x.handle.call.Idle? ==>
               !x.handle.call.at.Observing? && PastDeadline(x, now) && PollsLeft(x.handle.call.at) <= |polls|
    ensures Polls(x, now, overall, polls).handle.call.Idle?
    decreases polls
  {
    hide PollObserving, PollLocking, PollChild, LeaveCleanup, Inv, PastDeadline;
    if polls != [] {
      var y := Poll(x, now, overall, polls[0]);
      if !x.handle.call.Idle? {
        PollsTowardsItsEnd(x, now, overall, polls[0]);
        PollKeeps(x, now, overall, polls[0]);
      }
      CleanupEndsAtItsDeadline(y, now, overall, polls[1..]);
    }
  }

  lemma EnterCleanupLeavesObserving(x: Execution, now: int, overall: Option<int>)
    requires x.handle.call.Aborting? && x.handle.call.limit <= now
    ensures var y := EnterCleanup(x, now, overall);
            y.handle.call.Aborting? && !y.handle.call.at.Observing? && PastDeadline(y, now)
  {
  }

  lemma AbortLeavesObserving(x: Execution, now: int, overall: Option<int>, poll: ChildPoll)
    requires x.handle.call.Aborting? && x.handle.call.at.Observing? && x.handle.call.limit <= now
    ensures var y := Poll(x, now, overall, poll);
            !y.handle.call.Idle? ==> !y.handle.call.at.Observing? && PastDeadline(y, now)
  {
    EnterCleanupLeavesObserving(x, now, overall);
    if x.future.Ended? {
      EnterCleanupLeavesObserving(Observed(x, x.future.result), now, overall);
    }
    hide EnterCleanup, FailCleanup, LeaveCleanup, PollChild, PollLocking, PastDeadline;
  }

  /** An abort returns within four polls once the deadline it was given has passed, even when the aborted
  task never ends. */
  lemma AbortEndsAtItsDeadline(x: Execution, now: int, overall: Option<int>, polls: seq<ChildPoll>)
    requires Inv(x) && x.handle.call.Aborting? && x.handle.call.at.Observing?
    requires x.handle.call.limit <= now && 4 <= |polls|
    ensures Polls(x, now, overall, polls).handle.call.Idle?
  {
    var y := Poll(x, now, overall, polls[0]);
    PollKeeps(x, now, overall, polls[0]);
    AbortLeavesObserving(x, now, overall, polls[0]);
    hide Inv, Poll;
    CleanupEndsAtItsDeadline(y, now, overall, polls[1..]);
  }

  /** The two ownership errors of the cleanup path cannot occur: a recovered guard always finds its slot
  free, and a cleanup that still has a registered child finds it. */
  lemma OwnershipErrorsAreUnreachable(es: seq<Event>)
    ensures var x := Run(Spawned(), es);
            && (x.res.guard.Unverified? ==> !x.res.returned)
            && (!x.handle.call.Idle? && x.handle.call.at.Locking? && x.res.meta.child ==>
                 x.res.returned || x.res.recovering)
  {
    RunKeeps(Spawned(), es);
  }
}
