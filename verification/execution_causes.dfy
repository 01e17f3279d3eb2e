/** Why an execution fails, and when it does not: every recorded failure has its cause in the run, a call goes on
waiting until there is one, and a cleanup that gets what it waits for in time ends clean. */
module ExecutionCauses {
  import opened Wrappers
  import opened E = Execution

  // ---------------------------------------------------------------- causes

  predicate IsSuspended(x: Execution) { !x.handle.call.Idle? }

  predicate IsLate(x: Execution, now: int) { x.handle.deadline.Some? && x.handle.deadline.value <= now }

  /** What an event may give as a reason: the deadline of the cleanup has passed, the limit of an abort has passed
  with the future still running, no deadline could be computed, or the outside reports an error of its own. */
  function Causes(x: Execution, e: Event): set<Kind> {
    match e
    case PollCall(now, overall, poll) =>
      if !IsSuspended(x) then {}
      else
        (if !x.handle.call.at.Observing? && IsLate(x, now) then {EXECUTION_CLEANUP_TIMEOUT} else {})
        + (if x.handle.call.Aborting? && x.handle.call.limit <= now && x.future.Live? then {EXECUTION_ABORT_TIMEOUT}
           else {})
        + (if x.handle.call.Completing? && overall.None? then {CHILD_STOP_TIMEOUT_BOUND} else {})
        + (if poll.Unstopped? && x.handle.call.at.Child? then {poll.kind} else {})
    case CallAbort(_, stopError) => if stopError.Some? then {stopError.value} else {}
    case _ => {}
  }

  /** An error of the child that the suspended cleanup will report at its end. */
  function Carried(x: Execution): set<Kind> {
    if IsSuspended(x) && x.handle.call.at.Auxiliary? && x.handle.call.at.error.Some?
    then {x.handle.call.at.error.value} else {}
  }

  function Recorded(x: Execution): set<Kind> {
    if x.res.meta.failure.Some? then {x.res.meta.failure.value} else {}
  }

  lemma FailCleanupCauses(x: Execution, kind: Kind)
    ensures Recorded(FailCleanup(x, kind)) <= Recorded(x) + {kind}
  {
  }

  lemma LeaveCleanupCauses(x: Execution, error: Option<Kind>)
    ensures Recorded(LeaveCleanup(x, error)) <= Recorded(x) + (if error.Some? then {error.value} else {})
    ensures Carried(LeaveCleanup(x, error)) == {}
  {
  }

  lemma EnterCleanupCauses(x: Execution, now: int, overall: Option<int>)
    requires IsSuspended(x)
    ensures Recorded(EnterCleanup(x, now, overall)) <=
              Recorded(x) + if x.handle.call.Completing? && overall.None? then {CHILD_STOP_TIMEOUT_BOUND} else {}
    ensures Carried(EnterCleanup(x, now, overall)) <= {}
  {
  }

  lemma ReturnsCarryNothing(x: Execution)
    ensures Recorded(Return(x)) == Recorded(Deliver(x)) == Recorded(x)
              && Carried(Return(x)) == Carried(Deliver(x)) == {}
  {
  }

  lemma ObservedRecordsNothing(x: Execution, c: Completion)
    ensures Recorded(Observed(x, c)) == Recorded(x) && Observed(x, c).handle.call == x.handle.call
  {
  }

  lemma PollObservingCauses(x: Execution, now: int, overall: Option<int>, poll: ChildPoll)
    requires IsSuspended(x) && x.handle.call.at.Observing?
    ensures var y := PollObserving(x, now, overall);
            Recorded(y) + Carried(y) <= Recorded(x) + Causes(x, PollCall(now, overall, poll))
  {
    assert Carried(x) == {};
    EnterCleanupCauses(x, now, overall);
    ReturnsCarryNothing(x);
    ReturnsCarryNothing(FailCleanup(x, EXECUTION_ABORT_TIMEOUT));
    FailCleanupCauses(x, EXECUTION_ABORT_TIMEOUT);
    hide EnterCleanup, FailCleanup, Observed, Return, Deliver, Recorded, Carried, StateOf;
    if x.future.Ended? {
      ObservedRecordsNothing(x, x.future.result);
      EnterCleanupCauses(Observed(x, x.future.result), now, overall);
    }
  }

  lemma PollLockingCauses(x: Execution)
    requires Inv(x) && IsSuspended(x) && x.handle.call.at.Locking?
    ensures var y := PollLocking(x); Recorded(y) + Carried(y) <= Recorded(x)
  {
  }

  lemma PollChildCauses(x: Execution, poll: ChildPoll)
    requires IsSuspended(x) && x.handle.call.at.Child?
    ensures var y := PollChild(x, poll);
            Recorded(y) + Carried(y) <= Recorded(x) + if poll.Unstopped? then {poll.kind} else {}
  {
  }

  lemma PollCauses(x: Execution, now: int, overall: Option<int>, poll: ChildPoll)
    requires Inv(x) && IsSuspended(x)
    ensures var y := Poll(x, now, overall, poll);
            Recorded(y) + Carried(y) <= Recorded(x) + Carried(x) + Causes(x, PollCall(now, overall, poll))
  {
    hide PollObserving, PollLocking, PollChild, LeaveCleanup, Inv, Recorded, StateOf;
    LeaveCleanupCauses(x, Some(EXECUTION_CLEANUP_TIMEOUT));
    match x.handle.call.at {
      case Observing => PollObservingCauses(x, now, overall, poll);
      case Locking => PollLockingCauses(x);
      case Child => PollChildCauses(x, poll);
      case Auxiliary(error) => LeaveCleanupCauses(x, error);
    }
    assert Carried(x) <= Carried(x) + Causes(x, PollCall(now, overall, poll));
  }

  lemma AbortCauses(x: Execution, limit: int, stopError: Option<Kind>)
    ensures var y := BeginAbort(x, limit, stopError);
            Recorded(y) + Carried(y) <= Recorded(x) + if stopError.Some? then {stopError.value} else {}
  {
  }

  /** One event records or carries only what was there, or what it is a cause of. */
  lemma StepCauses(x: Execution, e: Event)
    requires Inv(x)
    ensures Recorded(Step(x, e)) + Carried(Step(x, e)) <= Recorded(x) + Carried(x) + Causes(x, e)
  {
    match e
    case PollCall(now, overall, poll) =>
      if IsSuspended(x) { PollCauses(x, now, overall, poll); }
      hide Poll, Inv;
    case CallAbort(limit, stopError) =>
      AbortCauses(x, limit, stopError);
      hide BeginAbort, Inv;
    case _ =>
  }

  lemma {:induction false} RunAppends(x: Execution, es: seq<Event>, e: Event)
    ensures Run(x, es + [e]) == Step(Run(x, es), e)
    decreases es
  {
    hide Step;
    if es == [] {
      assert [] + [e] == [e] && [e][1..] == [];
      assert Run(x, [e]) == Run(Step(x, e), []);
    } else {
      assert (es + [e])[1..] == es[1..] + [e];
      RunAppends(Step(x, es[0]), es[1..], e);
    }
  }

  /** Every failure of a run has its cause in the run: a timeout of the cleanup is recorded only if the suspended
  call was polled at or after its deadline, a timeout of the abort only if it was polled at or after its limit with
  the future still running, and so on, unless the outside reported that very error. */
  lemma {:induction false} FailuresHaveCauses(es: seq<Event>, kind: Kind)
    requires kind in Recorded(Run(Spawned(), es)) + Carried(Run(Spawned(), es))
    ensures exists i :: 0 <= i < |es| && kind in Causes(Run(Spawned(), es[..i]), es[i])
    decreases |es|
  {
    hide Step, Recorded, Carried, Causes;
    if es == [] {
      NothingYet();
    } else {
      var (front, e) := (es[..|es| - 1], es[|es| - 1]);
      var x := Run(Spawned(), front);
      assert es == front + [e];
      RunAppends(Spawned(), front, e);
      RunKeeps(Spawned(), front);
      StepCauses(x, e);
      if kind !in Causes(x, e) {
        FailuresHaveCauses(front, kind);
        var i :| 0 <= i < |front| && kind in Causes(Run(Spawned(), front[..i]), front[i]);
        assert front[..i] == es[..i] && front[i] == es[i];
      }
    }
  }

  lemma NothingYet()
    ensures Recorded(Spawned()) == Carried(Spawned()) == {}
  {
  }

  /** What may be taken for a timeout of the model comes from the model. */
  predicate IsHonest(e: Event) {
    && (e.CallAbort? && e.stopError.Some? ==>
         e.stopError.value !in {EXECUTION_CLEANUP_TIMEOUT, EXECUTION_ABORT_TIMEOUT})
    && (e.PollCall? && e.poll.Unstopped? ==> e.poll.kind !in {EXECUTION_CLEANUP_TIMEOUT, EXECUTION_ABORT_TIMEOUT})
  }

  lemma TimeoutIsLate(x: Execution, e: Event)
    requires IsHonest(e)
    ensures EXECUTION_CLEANUP_TIMEOUT in Causes(x, e) ==> e.PollCall? && IsSuspended(x) && IsLate(x, e.now)
    ensures EXECUTION_ABORT_TIMEOUT in Causes(x, e) ==>
              e.PollCall? && x.handle.call.Aborting? && x.handle.call.limit <= e.now
  {
    assert |EXECUTION_CLEANUP_TIMEOUT| == 25 && |EXECUTION_ABORT_TIMEOUT| == 23 && |CHILD_STOP_TIMEOUT_BOUND| == 24;
  }

  /** The two timeouts, for a run in which nobody else reports them. */
  lemma TimeoutsAreLate(es: seq<Event>)
    requires forall e | e in es :: IsHonest(e)
    ensures Run(Spawned(), es).res.meta.failure == Some(EXECUTION_CLEANUP_TIMEOUT) ==>
              exists i :: && 0 <= i < |es| && es[i].PollCall?
                          && IsSuspended(Run(Spawned(), es[..i])) && IsLate(Run(Spawned(), es[..i]), es[i].now)
    ensures Run(Spawned(), es).res.meta.failure == Some(EXECUTION_ABORT_TIMEOUT) ==>
              exists i :: && 0 <= i < |es| && es[i].PollCall? && Run(Spawned(), es[..i]).handle.call.Aborting?
                          && Run(Spawned(), es[..i]).handle.call.limit <= es[i].now
  {
    var x := Run(Spawned(), es);
    hide Run, Causes, IsHonest, IsSuspended, IsLate;
    forall i | 0 <= i < |es| ensures IsHonest(es[i]) {
      assert es[i] in es;
    }
    if x.res.meta.failure == Some(EXECUTION_CLEANUP_TIMEOUT) {
      FailuresHaveCauses(es, EXECUTION_CLEANUP_TIMEOUT);
      var i :| 0 <= i < |es| && EXECUTION_CLEANUP_TIMEOUT in Causes(Run(Spawned(), es[..i]), es[i]);
      TimeoutIsLate(Run(Spawned(), es[..i]), es[i]);
    }
    if x.res.meta.failure == Some(EXECUTION_ABORT_TIMEOUT) {
      FailuresHaveCauses(es, EXECUTION_ABORT_TIMEOUT);
      var i :| 0 <= i < |es| && EXECUTION_ABORT_TIMEOUT in Causes(Run(Spawned(), es[..i]), es[i]);
      TimeoutIsLate(Run(Spawned(), es[..i]), es[i]);
    }
  }

  /** And every cause that comes first is recorded there and then: it stops the worker, and the call is over, with the
  result delivered to a completion. */
  predicate Fails(x: Execution, y: Execution, kind: Kind) {
    y.res.meta.failure == Some(kind) && y.stop && y.handle.call.Idle?
        && (x.handle.call.Completing? ==> |y.log| == |x.log| + 1)
  }

  lemma LeaveCleanupRecords(x: Execution, kind: Kind)
    requires IsSuspended(x) && x.res.meta.failure.None?
    ensures Fails(x, LeaveCleanup(x, Some(kind)), kind)
  {
  }

  lemma CleanupFailuresAreRecorded(x: Execution, now: int, overall: Option<int>, poll: ChildPoll)
    requires Inv(x) && IsSuspended(x) && x.res.meta.failure.None?
    ensures var (at, y) := (x.handle.call.at, Step(x, PollCall(now, overall, poll)));
            && (at.Child? && poll.Waiting? && IsLate(x, now) ==> Fails(x, y, EXECUTION_CLEANUP_TIMEOUT))
            && (at.Auxiliary? && false in x.res.meta.auxiliary && IsLate(x, now) ==>
                 Fails(x, y, EXECUTION_CLEANUP_TIMEOUT))
            && (at.Auxiliary? && !(false in x.res.meta.auxiliary) && at.error.Some? ==> Fails(x, y, at.error.value))
  {
    hide Inv, PollObserving, PollLocking, PollChild, LeaveCleanup, Fails;
    LeaveCleanupRecords(x, EXECUTION_CLEANUP_TIMEOUT);
    if x.handle.call.at.Auxiliary? && x.handle.call.at.error.Some? {
      LeaveCleanupRecords(x, x.handle.call.at.error.value);
    }
  }

  /** The child's own error is carried to the end of the cleanup. */
  lemma ChildFailuresAreCarried(x: Execution, now: int, overall: Option<int>, reaped: bool, kind: Kind)
    requires IsSuspended(x) && x.handle.call.at.Child?
    ensures Step(x, PollCall(now, overall, Unstopped(reaped, kind))).handle.call.at == Auxiliary(Some(kind))
  {
    hide PollObserving, PollLocking, LeaveCleanup;
  }

  lemma AbortFailuresAreRecorded(x: Execution, now: int, overall: Option<int>, poll: ChildPoll)
    requires Inv(x) && IsSuspended(x) && x.res.meta.failure.None? && x.handle.call.at.Observing?
    ensures var y := Step(x, PollCall(now, overall, poll));
            && (x.handle.call.Aborting? && x.future.Live? && x.handle.call.limit <= now ==>
                  Fails(x, y, EXECUTION_ABORT_TIMEOUT))
            && (x.handle.call.Completing? && x.future.Ended? && x.handle.task && x.handle.deadline.None?
                 && overall.None? ==>
                  Fails(x, y, CHILD_STOP_TIMEOUT_BOUND))
  {
  }

  /** A panic stops the worker at once, and so does an emergency stop that fails. */
  lemma PanicsStopAtOnce(x: Execution, limit: int, stopError: Option<Kind>)
    ensures x.future.Live? ==> Step(x, EndFuture(Panic)).stop && Step(x, EndFuture(Panic)).future == Ended(Panic)
    ensures x.handle.call.Idle? && !x.handle.dropped && x.res.meta.failure.None? ==>
              Step(x, CallAbort(limit, stopError)).res.meta.failure == stopError
  {
    hide DropGuard;
  }

  // ---------------------------------------------------------------- waiting

  /** What a suspended call waits for is not there yet, and no time has run out. */
  predicate HasToWait(x: Execution, now: int, poll: ChildPoll) {
    && IsSuspended(x)
    && match x.handle.call.at
       case Observing => x.handle.task && x.future.Live? && (x.handle.call.Aborting? ==> now < x.handle.call.limit)
       case Locking => false
       case Child => poll.Waiting? && !IsLate(x, now)
       case Auxiliary(_) => false in x.res.meta.auxiliary && !IsLate(x, now)
  }

  /** Such a poll changes nothing: the call stays suspended where it is. */
  lemma PendingPollsWait(x: Execution, now: int, overall: Option<int>, poll: ChildPoll)
    requires Inv(x) && HasToWait(x, now, poll)
    ensures Step(x, PollCall(now, overall, poll)) == x
  {
  }

  // ---------------------------------------------------------------- the deadline

  /** Where the deadline of a cleanup comes from: `completed` sets the one it has computed and only if there is none,
  an abort brings it forward to its own limit at most. */
  lemma DeadlinesCome(x: Execution, e: Event)
    requires Inv(x)
    ensures var (was, now) := (x.handle.deadline, Step(x, e).handle.deadline);
            now != was ==>
              && e.PollCall? && x.handle.call.at.Observing? && x.future.Ended? && now.Some?
              && (x.handle.call.Completing? ==> was.None? && now == e.overall)
              && (x.handle.call.Aborting? ==> now == Some(x.handle.call.limit) && (was.Some? ==> now.value < was.value))
  {
    match e
    case PollCall(now, overall, poll) =>
      if IsSuspended(x) { PollDeadlines(x, now, overall, poll); }
      hide Poll, Inv;
    case CallAbort(limit, stopError) =>
      hide Inv;
    case _ =>
  }

  lemma EnterCleanupDeadlines(x: Execution, now: int, overall: Option<int>)
    requires IsSuspended(x)
    ensures var (was, next) := (x.handle.deadline, EnterCleanup(x, now, overall).handle.deadline);
            next != was ==>
              && next.Some? && (x.handle.call.Completing? ==> was.None? && next == overall)
              && (x.handle.call.Aborting? ==>
                   next == Some(x.handle.call.limit) && (was.Some? ==> next.value < was.value))
  {
    hide StateOf, EmergencyStop;
  }

  lemma LeaveCleanupDeadlines(x: Execution, error: Option<Kind>)
    ensures LeaveCleanup(x, error).handle.deadline == x.handle.deadline
  {
  }

  lemma LockingDeadlines(x: Execution)
    ensures PollLocking(x).handle.deadline == x.handle.deadline
  {
  }

  lemma ChildDeadlines(x: Execution, poll: ChildPoll)
    ensures PollChild(x, poll).handle.deadline == x.handle.deadline
  {
  }

  lemma PollObservingDeadlines(x: Execution, now: int, overall: Option<int>)
    requires Inv(x) && IsSuspended(x) && x.handle.call.at.Observing?
    ensures var (was, next) := (x.handle.deadline, PollObserving(x, now, overall).handle.deadline);
            next != was ==>
              && x.future.Ended? && next.Some? && (x.handle.call.Completing? ==> was.None? && next == overall)
              && (x.handle.call.Aborting? ==>
                   next == Some(x.handle.call.limit) && (was.Some? ==> next.value < was.value))
  {
    EnterCleanupDeadlines(x, now, overall);
    if x.future.Ended? {
      EnterCleanupDeadlines(Observed(x, x.future.result), now, overall);
    }
    hide EnterCleanup, StateOf;
  }

  lemma PollDeadlines(x: Execution, now: int, overall: Option<int>, poll: ChildPoll)
    requires Inv(x) && IsSuspended(x)
    ensures var (was, next) := (x.handle.deadline, Poll(x, now, overall, poll).handle.deadline);
            next != was ==>
              && x.handle.call.at.Observing? && x.future.Ended? && next.Some?
              && (x.handle.call.Completing? ==> was.None? && next == overall)
              && (x.handle.call.Aborting? ==>
                   next == Some(x.handle.call.limit) && (was.Some? ==> next.value < was.value))
  {
    hide PollObserving, PollLocking, PollChild, LeaveCleanup, Inv;
    LockingDeadlines(x);
    ChildDeadlines(x, poll);
    LeaveCleanupDeadlines(x, Some(EXECUTION_CLEANUP_TIMEOUT));
    if x.handle.call.at.Observing? {
      PollObservingDeadlines(x, now, overall);
    } else if x.handle.call.at.Auxiliary? {
      LeaveCleanupDeadlines(x, x.handle.call.at.error);
    }
  }

  // ---------------------------------------------------------------- a cleanup that succeeds

  /** A cleanup in which nothing has gone wrong so far. */
  ghost predicate IsGoingWell(x: Execution) {
    && Inv(x) && x.handle.call.Completing? && !x.handle.call.at.Observing?
    && x.res.meta.failure.None? && (x.handle.call.at.Auxiliary? ==> x.handle.call.at.error.None?)
  }

  /** Polls before the deadline that meet no error, and IO tasks that finish. */
  predicate IsTimely(e: Event, deadline: int) {
    e.FinishIo? || (e.PollCall? && e.now < deadline && !e.poll.Unstopped?)
  }

  predicate EndedClean(x: Execution) {
    x.handle.call.Idle? && x.log != [] && x.res.meta.failure.None? && StateOf(x.res.meta).Clean?
  }

  lemma AuxiliaryGoesOn(x: Execution, e: Event)
    requires IsGoingWell(x) && x.handle.call.at.Auxiliary? && IsTimely(e, x.handle.deadline.value)
    ensures var y := Step(x, e);
            || (IsGoingWell(y) && y.handle.deadline == x.handle.deadline && y.handle.call == x.handle.call)
            || (EndedClean(y) && y.log == x.log + [x.future.result])
  {
    StepKeeps(x, e);
  }

  lemma ChildGoesOn(x: Execution, e: Event)
    requires IsGoingWell(x) && !x.handle.call.at.Auxiliary? && IsTimely(e, x.handle.deadline.value)
    ensures IsGoingWell(Step(x, e)) && Step(x, e).handle.deadline == x.handle.deadline
  {
    StepKeeps(x, e);
  }

  /** Until its deadline such a cleanup goes on, or has ended clean with the result delivered. */
  lemma {:induction false} TimelyCleanupGoesOn(x: Execution, es: seq<Event>)
    requires IsGoingWell(x) && forall e | e in es :: IsTimely(e, x.handle.deadline.value)
    ensures var y := Run(x, es);
            || (IsGoingWell(y) && y.handle.deadline == x.handle.deadline)
            || (EndedClean(y) && y.log == [x.future.result])
    decreases es
  {
    hide Step, Inv;
    if es != [] {
      var y := Step(x, es[0]);
      assert es[0] in es && forall e | e in es[1..] :: e in es;
      NothingDelivered(x);
      StepKeeps(x, es[0]);
      if x.handle.call.at.Auxiliary? { AuxiliaryGoesOn(x, es[0]); } else { ChildGoesOn(x, es[0]); }
      if EndedClean(y) {
        DeliveredStays(y, es[1..]);
      } else {
        SameResult(x, es[0]);
        TimelyCleanupGoesOn(y, es[1..]);
      }
    }
  }

  lemma NothingDelivered(x: Execution)
    requires IsGoingWell(x)
    ensures x.log == [] && x.future.Ended?
  {
  }

  lemma SameResult(x: Execution, e: Event)
    requires Inv(x) && x.future.Ended?
    ensures Step(x, e).future == x.future
  {
    StepKeeps(x, e);
  }

  lemma {:induction false} DeliveredStays(x: Execution, es: seq<Event>)
    requires x.handle.call.Idle? && EndedClean(x) && forall e | e in es :: e.FinishIo? || e.PollCall?
    ensures EndedClean(Run(x, es)) && Run(x, es).log == x.log
    decreases es
  {
    if es != [] {
      assert es[0] in es && forall e | e in es[1..] :: e in es;
      FinishedStaysClean(x, es[0]);
      hide Step;
      DeliveredStays(Step(x, es[0]), es[1..]);
    }
  }

  lemma FinishedStaysClean(x: Execution, e: Event)
    requires EndedClean(x) && (e.FinishIo? || e.PollCall?)
    ensures EndedClean(Step(x, e)) && Step(x, e).log == x.log
  {
  }

  /** With the child stopped and the IO tasks finished in time, three polls end it: clean, without a failure, and
  with the result of the future delivered. */
  lemma TimelyCleanupEndsClean(x: Execution, now: int, overall: Option<int>)
    requires IsGoingWell(x) && now < x.handle.deadline.value && !(false in x.res.meta.auxiliary)
    ensures var poll := PollCall(now, overall, Stopped);
            var y := Run(x, [poll, poll, poll]);
            EndedClean(y) && y.log == [x.future.result] && Gone(y.res)
  {
    var poll := PollCall(now, overall, Stopped);
    var es := [poll, poll, poll];
    var (a, b, c) := (Step(x, poll), Step(Step(x, poll), poll), Step(Step(Step(x, poll), poll), poll));
    assert es[1..] == [poll, poll] && es[1..][1..] == [poll] && es[1..][1..][1..] == [];
    assert Run(x, es) == c by {
      hide Step;
      assert Run(x, es) == Run(a, es[1..]) == Run(b, es[1..][1..]) == Run(c, []);
    }
    assert PollsTaken(x) <= 3;
    SucceedingPoll(x, now, overall);
    if !EndedClean(a) {
      SucceedingPoll(a, now, overall);
      if !EndedClean(b) {
        SucceedingPoll(b, now, overall);
      } else {
        FinishedStaysClean(b, poll);
      }
    } else {
      FinishedStaysClean(a, poll);
      FinishedStaysClean(b, poll);
    }
    RunKeeps(x, es);
    hide Step, Inv, Run;
    CleanIsGone(c);
  }

  function PollsTaken(x: Execution): nat {
    if x.handle.call.Idle? then 0 else PollsLeft(x.handle.call.at)
  }

  lemma SucceedingPoll(x: Execution, now: int, overall: Option<int>)
    requires IsGoingWell(x) && now < x.handle.deadline.value && !(false in x.res.meta.auxiliary)
    ensures var y := Step(x, PollCall(now, overall, Stopped));
            || (EndedClean(y) && y.log == [x.future.result])
            || (IsGoingWell(y) && PollsTaken(y) < PollsTaken(x) && !(false in y.res.meta.auxiliary)
                && y.handle.deadline == x.handle.deadline && y.future == x.future)
  {
    StepKeeps(x, PollCall(now, overall, Stopped));
  }

  // ---------------------------------------------------------------- evidence

  /** Events in which the leader is seen to have ended, and the cgroup to be empty after it. */
  predicate SeesEnd(x: Execution, e: Event) {
    match e
    case VerifyCleanup(exited, _) => exited && x.future.Live? && !x.res.guard.NoGuard?
    case PollCall(_, _, poll) =>
      IsSuspended(x) && x.handle.call.at.Child? && (poll.Stopped? || (poll.Unstopped? && poll.reaped))
    case _ => false
  }

  predicate SeesEmpty(x: Execution, e: Event) {
    SeesEnd(x, e) && (e.VerifyCleanup? ==> e.empty) && (e.PollCall? ==> e.poll.Stopped?)
  }

  /** A stretch that sees nothing of the child and aborts nothing. */
  predicate SeesNothing(x: Execution, y: Execution) {
    && y.res.reaped == x.res.reaped && y.res.emptied == x.res.emptied && y.res.meta.child == x.res.meta.child
    && y.aborted == x.aborted
  }

  lemma LeaveCleanupIsNoEvidence(x: Execution, error: Option<Kind>)
    ensures SeesNothing(x, LeaveCleanup(x, error))
  {
  }

  lemma EnterCleanupIsNoEvidence(x: Execution, now: int, overall: Option<int>)
    ensures SeesNothing(x, EnterCleanup(x, now, overall))
  {
    hide StateOf;
  }

  lemma ObservingIsNoEvidence(x: Execution, now: int, overall: Option<int>)
    ensures SeesNothing(x, PollObserving(x, now, overall))
  {
    EnterCleanupIsNoEvidence(x, now, overall);
    if x.future.Ended? {
      EnterCleanupIsNoEvidence(Observed(x, x.future.result), now, overall);
    }
    hide EnterCleanup;
  }

  lemma LockingIsNoEvidence(x: Execution)
    ensures SeesNothing(x, PollLocking(x))
  {
  }

  lemma ChildEvidence(x: Execution, poll: ChildPoll)
    ensures var y := PollChild(x, poll);
            && y.aborted == x.aborted
            && (y.res.reaped <==> x.res.reaped || poll.Stopped? || (poll.Unstopped? && poll.reaped))
            && (y.res.emptied <==> x.res.emptied || poll.Stopped?)
            && (y.res.meta.child <==> x.res.meta.child && !poll.Stopped?)
  {
  }

  lemma PollEvidence(x: Execution, now: int, overall: Option<int>, poll: ChildPoll)
    ensures var (y, e) := (Poll(x, now, overall, poll), PollCall(now, overall, poll));
            && y.aborted == x.aborted
            && (y.res.reaped <==> x.res.reaped || SeesEnd(x, e))
                 && (y.res.emptied <==> x.res.emptied || SeesEmpty(x, e))
            && (x.res.meta.child && !y.res.meta.child ==> SeesEmpty(x, e))
  {
    hide PollObserving, PollLocking, PollChild, LeaveCleanup, StateOf;
    ObservingIsNoEvidence(x, now, overall);
    LockingIsNoEvidence(x);
    ChildEvidence(x, poll);
    LeaveCleanupIsNoEvidence(x, Some(EXECUTION_CLEANUP_TIMEOUT));
    if IsSuspended(x) && x.handle.call.at.Auxiliary? {
      LeaveCleanupIsNoEvidence(x, x.handle.call.at.error);
    }
  }

  lemma AbortIsNoEvidence(x: Execution, limit: int, stopError: Option<Kind>)
    ensures var (a, b) := (x.res, BeginAbort(x, limit, stopError).res);
            b.reaped == a.reaped && b.emptied == a.emptied && b.meta.child == a.meta.child
  {
  }

  lemma DropIsNoEvidence(x: Execution)
    ensures var (a, b, c) := (x.res, Abandon(x).res, Free(x.res));
            && b.reaped == c.reaped == a.reaped && b.emptied == c.emptied == a.emptied
            && b.meta.child == c.meta.child == a.meta.child
  {
    hide StateOf;
  }

  /** An end or an empty cgroup is on record exactly once it has been seen, and a child is retired only then. */
  lemma EvidenceIsSeen(x: Execution, e: Event)
    ensures var (a, b) := (x.res, Step(x, e).res);
            && (b.reaped <==> a.reaped || SeesEnd(x, e))
            && (b.emptied <==> a.emptied || SeesEmpty(x, e))
            && (a.meta.child && !b.meta.child ==> SeesEmpty(x, e))
  {
    match e
    case PollCall(now, overall, poll) =>
      PollEvidence(x, now, overall, poll);
      hide Poll;
    case CallAbort(limit, stopError) =>
      AbortIsNoEvidence(x, limit, stopError);
      hide BeginAbort;
    case VerifyCleanup(exited, empty) =>
    case DropHandle =>
      DropIsNoEvidence(x);
      hide Abandon;
    case FreeResources =>
      DropIsNoEvidence(x);
      hide Free;
    case _ => OtherEventsSeeNothing(x, e);
      hide SeesEnd;
  }

  lemma GuardIsNoEvidence(res: Resources)
    ensures var (a, b) := (Register(res), DropGuard(res));
            && a.reaped == b.reaped == res.reaped && a.emptied == b.emptied == res.emptied
            && (res.meta.child ==> a.meta.child && b.meta.child)
  {
  }

  lemma SmallEventsSeeNothing(x: Execution, i: nat)
    ensures SeesNothing(x, Step(x, SpawnIo)) && SeesNothing(x, Step(x, FinishIo(i)))
    ensures SeesNothing(x, Step(x, CallCompleted)) && SeesNothing(x, Step(x, DropCall))
  {
  }

  lemma GuardEventsSeeNothing(x: Execution, e: Event)
    requires e.SpawnChild? || e.ReleaseGuard? || e.EndFuture?
    ensures var (a, b) := (x.res, Step(x, e).res);
            b.reaped == a.reaped && b.emptied == a.emptied && (a.meta.child ==> b.meta.child)
  {
    hide Poll, BeginAbort, Abandon, Free, Register, DropGuard, Verify;
    GuardIsNoEvidence(x.res);
  }

  lemma OtherEventsSeeNothing(x: Execution, e: Event)
    requires !e.PollCall? && !e.CallAbort? && !e.VerifyCleanup? && !e.DropHandle? && !e.FreeResources?
    ensures var (a, b) := (x.res, Step(x, e).res);
            b.reaped == a.reaped && b.emptied == a.emptied && (a.meta.child ==> b.meta.child)
    ensures !SeesEnd(x, e) && !SeesEmpty(x, e)
  {
    hide Step;
    if e.SpawnChild? || e.ReleaseGuard? || e.EndFuture? {
      GuardEventsSeeNothing(x, e);
    } else {
      SmallEventsSeeNothing(x, if e.FinishIo? then e.io else 0);
    }
  }

  /** In every run: the child was reaped, and its cgroup empty, exactly if an event of the run saw it so. */
  lemma {:induction false} EvidenceInTheRun(es: seq<Event>)
    ensures var res := Run(Spawned(), es).res;
            && (res.reaped <==> exists i :: 0 <= i < |es| && SeesEnd(Run(Spawned(), es[..i]), es[i]))
            && (res.emptied <==> exists i :: 0 <= i < |es| && SeesEmpty(Run(Spawned(), es[..i]), es[i]))
    decreases |es|
  {
    hide Step, SeesEnd, SeesEmpty;
    if es != [] {
      var (front, e) := (es[..|es| - 1], es[|es| - 1]);
      var x := Run(Spawned(), front);
      assert es == front + [e];
      RunAppends(Spawned(), front, e);
      EvidenceIsSeen(x, e);
      EvidenceInTheRun(front);
      forall i | 0 <= i < |front| ensures front[..i] == es[..i] && front[i] == es[i] {
      }
      assert es[..|front|] == front && es[|front|] == e;
      if x.res.reaped {
        var i :| 0 <= i < |front| && SeesEnd(Run(Spawned(), front[..i]), front[i]);
        assert es[..i] == front[..i];
      }
      if x.res.emptied {
        var i :| 0 <= i < |front| && SeesEmpty(Run(Spawned(), front[..i]), front[i]);
        assert es[..i] == front[..i];
      }
    }
  }

  // ---------------------------------------------------------------- aborting, IO tasks

  /** An abort stops the worker, kills the child and aborts the future before it waits; dropping a handle aborts a
  future that has not been observed. Nothing else aborts it. */
  lemma AbortsReachTheFuture(x: Execution, e: Event)
    ensures e.CallAbort? && x.handle.call.Idle? && !x.handle.dropped ==>
              var y := Step(x, e);
              && y.aborted && y.stop && y.handle.call == Aborting(Observing, e.limit)
                   && (x.res.meta.child ==> y.res.killed)
              && (x.future.Live? ==> Step(y, EndFuture(TaskAborted)).future == Ended(TaskAborted))
    ensures e.DropHandle? && !x.handle.dropped ==>
              (Step(x, e).aborted <==> x.aborted || x.handle.task) && Step(x, e).handle.dropped
    ensures !x.aborted && Step(x, e).aborted ==> e.CallAbort? || e.DropHandle?
  {
    if e.PollCall? {
      PollEvidence(x, e.now, e.overall, e.poll);
    }
    hide Poll, DropGuard;
  }

  /** The resources go exactly when nobody can reach them any more. */
  lemma ResourcesAreFreed(x: Execution)
    ensures Step(x, FreeResources).res.freed <==> x.res.freed || (x.handle.dropped && x.future.Ended?)
  {
  }

  /** A new IO task is unfinished: the execution is not clean before that very task has finished. */
  lemma NewTasksAreUnfinished(x: Execution)
    requires x.future.Live?
    ensures var y := Step(x, SpawnIo);
            && y.res.meta.auxiliary == x.res.meta.auxiliary + [false] && !StateOf(y.res.meta).Clean?
            && y == x.(res := x.res.(meta := x.res.meta.(auxiliary := y.res.meta.auxiliary)))
  {
    var y := Step(x, SpawnIo);
    assert y.res.meta.auxiliary[|x.res.meta.auxiliary|] == false;
  }

  lemma TasksFinishOnce(x: Execution, i: nat)
    requires i < |x.res.meta.auxiliary|
    ensures var y := Step(x, FinishIo(i));
            && |y.res.meta.auxiliary| == |x.res.meta.auxiliary|
            && (forall k | 0 <= k < |x.res.meta.auxiliary| ::
                 y.res.meta.auxiliary[k] == (k == i || x.res.meta.auxiliary[k]))
            && y == x.(res := x.res.(meta := x.res.meta.(auxiliary := y.res.meta.auxiliary)))
  {
  }

  /** A scope takes one child ever: the first one is registered with its guard, a second one changes nothing. */
  lemma OneChildEver(x: Execution)
    requires x.future.Live?
    ensures var y := Step(x, SpawnChild);
            if x.res.meta.registered then y == x
            else y.res.meta.registered && y.res.meta.child && y.res.guard.Unverified? && !StateOf(y.res.meta).Clean?
  {
  }

  // ---------------------------------------------------------------- stopping the worker

  /** What requests the common stop: a panic, an abort, an end without a value, and a failure or a completion that
  leaves something behind. */
  predicate IsStopCause(x: Execution, e: Event) {
    || (e.EndFuture? && e.end.Panic?)
    || e.CallAbort?
    || (e.PollCall? && IsSuspended(x) && x.future.Ended?
        && (!x.future.result.Value? || !StateOf(x.res.meta).Clean? || Causes(x, e) != {} || Carried(x) != {}))
  }

  lemma EnterCleanupStops(x: Execution, now: int, overall: Option<int>)
    requires IsSuspended(x) && !x.stop && x.handle.call.Completing?
    ensures EnterCleanup(x, now, overall).stop ==> !StateOf(x.res.meta).Clean? || overall.None?
  {
    hide StateOf, EmergencyStop;
  }

  lemma PollObservingStops(x: Execution, now: int, overall: Option<int>, poll: ChildPoll)
    requires Inv(x) && IsSuspended(x) && !x.stop && x.handle.call.at.Observing?
    ensures PollObserving(x, now, overall).stop ==> IsStopCause(x, PollCall(now, overall, poll))
  {
    assert x.handle.call.Completing?;
    EnterCleanupStops(x, now, overall);
    if x.future.Ended? && x.future.result.Value? {
      EnterCleanupStops(Observed(x, x.future.result), now, overall);
    }
    hide EnterCleanup, StateOf;
  }

  lemma LeaveCleanupStops(x: Execution, error: Option<Kind>)
    requires !x.stop
    ensures LeaveCleanup(x, error).stop <==> error.Some?
  {
  }

  lemma SmallPollsStopNothing(x: Execution, poll: ChildPoll)
    ensures PollLocking(x).stop == PollChild(x, poll).stop == x.stop
  {
  }

  /** Nothing else does, so an execution that ends with its value and leaves nothing behind does not stop the worker. */
  lemma StopsHaveCauses(x: Execution, e: Event)
    requires Inv(x) && !x.stop && Step(x, e).stop
    ensures IsStopCause(x, e)
  {
    match e
    case PollCall(now, overall, poll) =>
      if IsSuspended(x) {
        SmallPollsStopNothing(x, poll);
        LeaveCleanupStops(x, Some(EXECUTION_CLEANUP_TIMEOUT));
        if x.handle.call.at.Observing? {
          PollObservingStops(x, now, overall, poll);
        } else if x.handle.call.at.Auxiliary? {
          LeaveCleanupStops(x, x.handle.call.at.error);
        }
      }
      hide PollObserving, PollLocking, PollChild, LeaveCleanup, StateOf;
    case _ =>
  }

  /** Over whole runs. */
  lemma {:induction false} StopInTheRun(es: seq<Event>)
    requires Run(Spawned(), es).stop
    ensures exists i :: 0 <= i < |es| && IsStopCause(Run(Spawned(), es[..i]), es[i])
    decreases |es|
  {
    hide Step, IsStopCause, Inv;
    if es != [] {
      var (front, e) := (es[..|es| - 1], es[|es| - 1]);
      var x := Run(Spawned(), front);
      assert es == front + [e];
      RunAppends(Spawned(), front, e);
      SpawnedIsOk();
      RunKeeps(Spawned(), front);
      if x.stop {
        StopInTheRun(front);
        var i :| 0 <= i < |front| && IsStopCause(Run(Spawned(), front[..i]), front[i]);
        assert front[..i] == es[..i] && front[i] == es[i];
      } else {
        StopsHaveCauses(x, e);
        assert es[..|front|] == front && es[|front|] == e;
      }
    }
  }

  lemma SpawnedIsOk()
    ensures Inv(Spawned()) && !Spawned().stop && !Spawned().res.killed
  {
  }
}
