/** The scheduler of one worker: its single reservation, the claim it hands over, the attempt it runs and
the shutdown that drains it.

`drive` and `finish` are cut at their awaits into phases. The attempt in `active` carries a whole
`Execution`, which moves on between any two of them, so what is proved about capacity covers every way an
attempt can end: cleanly, uncleanly, by a panic, or aborted at the deadline. */
module WorkerRuntime {
  import opened Wrappers
  import E = Execution

  datatype Runner = Analysis | Ocr

  datatype Pending = Pending(runner: Runner, claim: int)

  datatype Attempt = Attempt(runner: Runner, claim: int, exec: E.Execution)

  /** `WorkState`: the budget, the recorded claim, and the runners that are at home. */
  datatype Work = Work(reserved: bool, pending: Option<Pending>, home: set<Runner>)

  /** `Runtime`. The whole finished attempt stands beside the runner it returned. */
  datatype Owner = Owner(deadline: Option<int>, failure: Option<string>, active: Option<Attempt>,
      returned: Option<Attempt>)

  datatype Phase =
    | LoopTop
    | Scanning
    | Claiming(runner: Runner)
    | StepEnded(ok: bool)
    | Idling
    | Draining
    | Aborting(attempt: Option<Attempt>)
    | Done

  /** Bookkeeping: `leaked` counts reservations nobody will return, `recorded` and `started` list the claims
  recorded as pending and those spawned, `restored` the attempts whose capacity came back. */
  datatype State = State(
    work: Work, owner: Owner, phase: Phase, configured: set<Runner>,
    leaked: nat, recorded: seq<int>, started: seq<int>, restored: seq<Attempt>)

  /** The clock and `now + drain timeout` where that can be represented. */
  datatype Clock = Clock(now: int, drained: Option<int>)

  const CLEANUP_FAILED := "cleanup_failed"
  const EXECUTION := "execution"
  const PANICKED := "panicked"
  const SHUTDOWN_DRAIN_BUDGET_BOUND := "shutdown_drain_budget_bound"
  const SHUTDOWN_DRAIN_TIMEOUT := "shutdown_drain_timeout"

  function Ready(configured: set<Runner>): State {
    State(Work(false, None, configured), Owner(None, None, None, None), LoopTop, configured, 0, [], [], [])
  }

  // ---------------------------------------------------------------- the pieces

  /** `WorkState::restore`. */
  function Restore(work: Work, runner: Runner): Work {
    work.(reserved := false, home := work.home + {runner})
  }

  function RequestStop(owner: Owner, clock: Clock): Owner {
    if owner.deadline.Some? then owner
    else if clock.drained.Some? then owner.(deadline := clock.drained)
    else owner.(deadline := Some(clock.now),
                failure := if owner.failure.Some? then owner.failure else Some(SHUTDOWN_DRAIN_BUDGET_BOUND))
  }

  function Fail(owner: Owner, error: string, clock: Clock): Owner {
    RequestStop(owner.(failure := if owner.failure.Some? then owner.failure else Some(error)), clock)
  }

  function StartAttempt(owner: Owner, pending: Pending): Owner {
    owner.(active := Some(Attempt(pending.runner, pending.claim, E.Spawned())))
  }

  /** An attempt gives its runner back only with its value and with nothing left of it. */
  predicate Finished(exec: E.Execution) {
    exec.log != [] && exec.log[0].Value? && E.StateOf(exec.res.meta) == E.Clean
  }

  /** The arm of `Runtime::observe` for a completed attempt; an empty value is its success. */
  function Observe(owner: Owner, done: Attempt, clock: Clock): Owner
    requires done.exec.log != []
  {
    var clean := E.StateOf(done.exec.res.meta) == E.Clean;
    var freed := owner.(active := None, returned := if Finished(done.exec) then Some(done) else owner.returned);
    var told := match done.exec.log[0]
                case Value(v) => if v != "" then Fail(freed, v, clock) else freed
                case _ => Fail(freed, EXECUTION, clock);
    if clean then told else Fail(told, CLEANUP_FAILED, clock)
  }

  // ---------------------------------------------------------------- the main task

  datatype ClaimAnswer = Contention | Rejected | Claimed(claim: int) | Broken

  datatype Event =
    | Begin(clock: Clock)
    | Reserve(runner: Runner)
    | ClaimAnswered(answer: ClaimAnswer)
    | EndStep(ok: bool)
    | AfterStep(error: string, clock: Clock)
    | Wake
    | Crash(clock: Clock)
    | Attempting(e: E.Event, clock: Clock)
    | Stop(clock: Clock)
    | Complain(error: string, clock: Clock)
    | EndDrain
    | DrainTimeout(stopError: Option<string>, clock: Clock)
    | Abort(e: E.Event)
    | EndAbort(refused: Option<string>, clock: Clock)
    | Close

  /** Take the recorded claim, if there is one, and spawn its attempt. */
  function StartPending(s: State): State {
    if s.work.pending.None? then s
    else s.(work := s.work.(pending := None), owner := StartAttempt(s.owner, s.work.pending.value),
            started := s.started + [s.work.pending.value.claim])
  }

  /** `runtime.returned.take()` and `restore`. */
  function TakeReturned(s: State): State {
    if s.owner.returned.None? then s
    else s.(work := Restore(s.work, s.owner.returned.value.runner), owner := s.owner.(returned := None),
            restored := s.restored + [s.owner.returned.value])
  }

  /** The first half of `finish`. */
  function Finish(s: State, clock: Clock): State {
    StartPending(s.(owner := RequestStop(s.owner, clock))).(phase := Draining)
  }

  function Lost(s: State): nat { if s.phase.Claiming? then 1 else 0 }

  /** The answer to a claim made under a reservation. */
  function Answer(s: State, runner: Runner, answer: ClaimAnswer): State {
    match answer
    case Contention => s.(work := s.work.(reserved := false), phase := Scanning)
    case Rejected => s.(work := s.work.(reserved := false), phase := Scanning)
    case Claimed(claim) =>
      if runner in s.work.home then
        s.(work := s.work.(pending := Some(Pending(runner, claim)), home := s.work.home - {runner}),
           phase := Scanning, recorded := s.recorded + [claim])
      else s.(phase := StepEnded(false), leaked := s.leaked + 1)
    case Broken => s.(phase := StepEnded(false), leaked := s.leaked + 1)
  }

  /** One event of the running attempt, and its completion if that event delivers it. */
  function StepAttempt(s: State, e: E.Event, clock: Clock): State {
    if s.owner.active.None? then s
    else
      var next := s.owner.active.value.(exec := E.Step(s.owner.active.value.exec, e));
      if next.exec.log == [] then s.(owner := s.owner.(active := Some(next)))
      else s.(owner := Observe(s.owner, next, clock), leaked := s.leaked + if Finished(next.exec) then 0 else 1)
  }

  /** The abort of what is still active once the drain has timed out. */
  function BeginAbort(s: State, stopError: Option<string>, clock: Clock): State {
    var failed := Fail(s.owner, SHUTDOWN_DRAIN_TIMEOUT, clock);
    if s.owner.active.None? || failed.deadline.None? then s.(owner := failed, phase := Aborting(None))
    else
      var a := s.owner.active.value;
      var exec := E.Step(E.Step(a.exec, E.DropCall), E.CallAbort(failed.deadline.value, stopError));
      s.(owner := failed.(active := None), phase := Aborting(Some(a.(exec := exec))))
  }

  function Step(s: State, e: Event): State {
    match e
    case Begin(clock) =>
      if !s.phase.LoopTop? then s
      else if s.owner.deadline.Some? then Finish(s, clock)
      else TakeReturned(s).(phase := Scanning)
    case Reserve(runner) =>
      if s.phase.Scanning? && !s.work.reserved && (runner.Ocr? ==> runner in s.work.home) then
        s.(work := s.work.(reserved := true), phase := Claiming(runner))
      else s
    case ClaimAnswered(answer) => if s.phase.Claiming? then Answer(s, s.phase.runner, answer) else s
    case EndStep(ok) =>
      if s.phase.Scanning? || (s.phase.Claiming? && !ok) then s.(phase := StepEnded(ok), leaked := s.leaked + Lost(s))
      else s
    case AfterStep(error, clock) =>
      if !s.phase.StepEnded? then s
      else if s.phase.ok then StartPending(s).(phase := Idling)
      else
        var t := StartPending(s);
        Finish(t.(owner := Fail(t.owner, error, clock)), clock)
    case Wake => if s.phase.Idling? then s.(phase := LoopTop) else s
    case Crash(clock) =>
      if s.phase.Draining? || s.phase.Aborting? || s.phase.Done? then s
      else Finish(s.(owner := Fail(s.owner, PANICKED, clock), leaked := s.leaked + Lost(s), phase := StepEnded(false)),
                  clock)
    case Attempting(e, clock) =>
      if s.phase.Aborting? || s.phase.Done? || e.CallAbort? || e.DropHandle? then s else StepAttempt(s, e, clock)
    case Stop(clock) => if s.phase.Done? then s else s.(owner := RequestStop(s.owner, clock))
    case Complain(error, clock) => if s.phase.Done? then s else s.(owner := Fail(s.owner, error, clock))
    case EndDrain => if s.phase.Draining? && s.owner.active.None? then s.(phase := Aborting(None)) else s
    case DrainTimeout(stopError, clock) => if s.phase.Draining? then BeginAbort(s, stopError, clock) else s
    case Abort(e) =>
      if s.phase.Aborting? && s.phase.attempt.Some? then
        var a := s.phase.attempt.value;
        s.(phase := Aborting(Some(a.(exec := E.Step(a.exec, e)))))
      else s
    case EndAbort(refused, clock) =>
      if s.phase.Aborting? && s.phase.attempt.Some? && s.phase.attempt.value.exec.handle.call.Idle? then
        s.(phase := Aborting(None), leaked := s.leaked + 1,
           owner := if refused.Some? then Fail(s.owner, refused.value, clock) else s.owner)
      else s
    case Close =>
      if s.phase.Aborting? && s.phase.attempt.None? then TakeReturned(s).(phase := Done) else s
  }

  function Run(s: State, es: seq<Event>): State
    decreases es
  {
    if es == [] then s else Run(Step(s, es[0]), es[1..])
  }

  // ---------------------------------------------------------------- the invariant

  function One<T>(o: Option<T>): nat { if o.Some? then 1 else 0 }

  /** Everything that accounts for a reservation. */
  function Uses(s: State): nat {
    Lost(s) + One(s.work.pending) + One(s.owner.active) + One(s.owner.returned)
    + (if s.phase.Aborting? then One(s.phase.attempt) else 0) + s.leaked
  }

  /** Capacity is conserved: the reservation is held exactly when one thing accounts for it. */
  ghost predicate CapacityOk(s: State) {
    Uses(s) == if s.work.reserved then 1 else 0
  }

  /** A runner that is not at home is with the claim, the attempt or the finished attempt. */
  ghost predicate RunnersOk(s: State) {
    && s.work.home <= s.configured
    && Analysis in s.configured
    && (!s.work.reserved || s.phase.Claiming? ==> s.work.home == s.configured)
    && (s.work.pending.Some? ==> s.work.home == s.configured - {s.work.pending.value.runner})
    && (s.owner.active.Some? ==> s.work.home == s.configured - {s.owner.active.value.runner})
    && (s.owner.returned.Some? ==> s.work.home == s.configured - {s.owner.returned.value.runner}
                                    && s.owner.returned.value.runner in s.configured)
    && (s.owner.active.Some? ==> s.owner.active.value.runner in s.configured)
    && (s.work.pending.Some? ==> s.work.pending.value.runner in s.configured)
    && (s.phase.Claiming? ==> s.phase.runner in s.configured)
  }

  ghost predicate AttemptsOk(s: State) {
    && (s.owner.active.Some? ==>
          && E.Inv(s.owner.active.value.exec) && s.owner.active.value.exec.log == []
          && !s.owner.active.value.exec.handle.dropped)
    && (s.phase.Aborting? && s.phase.attempt.Some? ==> E.Inv(s.phase.attempt.value.exec))
    && (s.owner.returned.Some? ==> Finished(s.owner.returned.value.exec) && E.Gone(s.owner.returned.value.exec.res))
    && forall a | a in s.restored :: Finished(a.exec) && E.Gone(a.exec.res)
  }

  ghost predicate PhaseOk(s: State) {
    && (s.phase.Draining? || s.phase.Aborting? || s.phase.Done? ==> s.owner.deadline.Some? && s.work.pending.None?)
    && (s.phase.Aborting? || s.phase.Done? ==> s.owner.active.None?)
    && (s.phase.Done? ==> s.owner.returned.None?)
    && (s.phase.LoopTop? || s.phase.Idling? ==> s.work.pending.None?)
    && (s.leaked > 0 ==> s.owner.deadline.Some? || s.phase == StepEnded(false))
    && s.recorded == s.started + if s.work.pending.Some? then [s.work.pending.value.claim] else []
  }

  ghost predicate Inv(s: State) { CapacityOk(s) && RunnersOk(s) && AttemptsOk(s) && PhaseOk(s) }

  /** What no event takes back: the common deadline is fixed once, the first failure stays, a leaked
  reservation stays leaked, and the history only grows. */
  ghost predicate Advances(s: State, t: State) {
    && (s.owner.deadline.Some? ==> t.owner.deadline == s.owner.deadline)
    && (s.owner.failure.Some? ==> t.owner.failure == s.owner.failure)
    && s.leaked <= t.leaked
    && s.started <= t.started && s.recorded <= t.recorded && s.restored <= t.restored
    && t.configured == s.configured
  }

  // ---------------------------------------------------------------- one event

  lemma StartPendingKeeps(s: State)
    requires Inv(s)
    ensures var t := StartPending(s);
            Inv(t) && Advances(s, t) && t.work.pending.None? && t.owner.deadline == s.owner.deadline
                && t.phase == s.phase
  {
    hide E.Gone, Finished;
    if s.work.pending.Some? {
      assert E.Inv(E.Spawned());
    }
  }

  lemma TakeReturnedKeeps(s: State)
    requires Inv(s) && (s.phase.LoopTop? || s.phase.Aborting?)
    ensures var t := TakeReturned(s);
            Inv(t) && Advances(s, t) && t.owner.returned.None? && t.owner.deadline == s.owner.deadline
                && t.phase == s.phase
            && t.work.pending == s.work.pending && t.owner.active == s.owner.active
  {
    hide E.Gone, Finished, E.Inv;
  }

  /** Stopping and failing touch neither the capacity nor the runners. */
  lemma OwnerKeeps(s: State, owner: Owner)
    requires Inv(s)
    requires owner.active == s.owner.active && owner.returned == s.owner.returned
    requires s.owner.deadline.Some? ==> owner.deadline == s.owner.deadline
    requires s.owner.failure.Some? ==> owner.failure == s.owner.failure
    ensures Inv(s.(owner := owner)) && Advances(s, s.(owner := owner))
  {
    hide E.Gone, Finished, E.Inv;
  }

  lemma AdvancesComposes(s: State, t: State, u: State)
    requires Advances(s, t) && Advances(t, u)
    ensures Advances(s, u)
  {
  }

  lemma FailKeeps(owner: Owner, error: string, clock: Clock)
    ensures var f := Fail(owner, error, clock);
            && f.active == owner.active && f.returned == owner.returned && f.deadline.Some? && f.failure.Some?
            && (owner.deadline.Some? ==> f.deadline == owner.deadline)
            && (owner.failure.Some? ==> f.failure == owner.failure)
  {
  }

  /** From any phase of `drive` into the drain. */
  lemma FinishKeeps(s: State, clock: Clock)
    requires Inv(s) && !s.phase.Aborting? && !s.phase.Done? && !s.phase.Draining?
    requires Lost(s) == 0
    ensures Inv(Finish(s, clock)) && Advances(s, Finish(s, clock))
  {
    hide E.Gone, Finished, E.Inv;
    var t := s.(owner := RequestStop(s.owner, clock));
    OwnerKeeps(s, t.owner);
    StartPendingKeeps(t);
  }

  lemma AnswerKeeps(s: State, answer: ClaimAnswer)
    requires Inv(s) && s.phase.Claiming?
    ensures var t := Answer(s, s.phase.runner, answer);
            Inv(t) && Advances(s, t)
                && (answer.Claimed? ==> t.phase.Scanning? && t.recorded == s.recorded + [answer.claim])
  {
    hide E.Gone, Finished, E.Inv;
  }

  /** What `observe` does when an attempt ends. */
  lemma ObserveKeeps(s: State, done: Attempt, clock: Clock)
    requires Inv(s) && s.owner.active.Some? && !s.phase.Aborting? && !s.phase.Done?
    requires done.runner == s.owner.active.value.runner && done.exec.log != [] && E.Inv(done.exec)
    ensures var t := s.(owner := Observe(s.owner, done, clock),
                        leaked := s.leaked + if Finished(done.exec) then 0 else 1);
            Inv(t) && Advances(s, t)
  {
    hide E.Inv, E.Gone, E.StateOf;
    var freed := s.owner.(active := None, returned := if Finished(done.exec) then Some(done) else s.owner.returned);
    FailKeeps(freed, EXECUTION, clock);
    if done.exec.log[0].Value? {
      FailKeeps(freed, done.exec.log[0].value, clock);
    }
    if Finished(done.exec) {
      E.CleanIsGone(done.exec);
    }
  }

  lemma StepAttemptKeeps(s: State, e: E.Event, clock: Clock)
    requires Inv(s) && !s.phase.Aborting? && !s.phase.Done? && !e.DropHandle?
    ensures Inv(StepAttempt(s, e, clock)) && Advances(s, StepAttempt(s, e, clock))
  {
    hide E.Inv, E.Gone, E.Step, Finished, Observe;
    if s.owner.active.Some? {
      var next := s.owner.active.value.(exec := E.Step(s.owner.active.value.exec, e));
      E.StepKeeps(s.owner.active.value.exec, e);
      E.OnlyDropHandleDrops(s.owner.active.value.exec, e);
      if next.exec.log != [] {
        ObserveKeeps(s, next, clock);
      }
    }
  }

  lemma BeginAbortKeeps(s: State, stopError: Option<string>, clock: Clock)
    requires Inv(s) && s.phase.Draining?
    ensures Inv(BeginAbort(s, stopError, clock)) && Advances(s, BeginAbort(s, stopError, clock))
  {
    hide E.Inv, E.Gone, E.Step, Finished;
    if s.owner.active.Some? {
      var a := s.owner.active.value;
      E.StepKeeps(a.exec, E.DropCall);
      E.StepKeeps(E.Step(a.exec, E.DropCall),
                  E.CallAbort(Fail(s.owner, SHUTDOWN_DRAIN_TIMEOUT, clock).deadline.value, stopError));
    }
  }

  lemma CrashKeeps(s: State, clock: Clock)
    requires Inv(s)
    ensures Inv(Step(s, Crash(clock))) && Advances(s, Step(s, Crash(clock)))
  {
    hide E.Gone, Finished, E.Inv, Fail, Finish;
    if !s.phase.Draining? && !s.phase.Aborting? && !s.phase.Done? {
      FailKeeps(s.owner, PANICKED, clock);
      var t := s.(owner := Fail(s.owner, PANICKED, clock), leaked := s.leaked + Lost(s), phase := StepEnded(false));
      FinishKeeps(t, clock);
      AdvancesComposes(s, t, Finish(t, clock));
    }
  }

  lemma AfterStepKeeps(s: State, error: string, clock: Clock)
    requires Inv(s)
    ensures Inv(Step(s, AfterStep(error, clock))) && Advances(s, Step(s, AfterStep(error, clock)))
  {
    hide E.Gone, Finished, E.Inv, Fail, Finish, StartPending;
    if s.phase.StepEnded? {
      StartPendingKeeps(s);
      var t := StartPending(s);
      if !s.phase.ok {
        var u := t.(owner := Fail(t.owner, error, clock));
        FailKeeps(t.owner, error, clock);
        OwnerKeeps(t, u.owner);
        FinishKeeps(u, clock);
        AdvancesComposes(s, t, u);
        AdvancesComposes(s, u, Finish(u, clock));
      }
    }
  }

  /** The steps of the scheduler that neither start nor end anything. */
  lemma SmallStepKeeps(s: State, e: Event)
    requires Inv(s) && (e.Reserve? || e.EndStep? || e.Wake? || e.EndDrain?)
    ensures Inv(Step(s, e)) && Advances(s, Step(s, e))
  {
    hide E.Gone, Finished, E.Inv;
  }

  lemma EndAbortKeeps(s: State, e: Event)
    requires Inv(s) && (e.Abort? || e.EndAbort?)
    ensures Inv(Step(s, e)) && Advances(s, Step(s, e))
  {
    hide E.Gone, Finished, E.Inv, E.Step, Fail;
    if s.phase.Aborting? && s.phase.attempt.Some? {
      if e.Abort? {
        E.StepKeeps(s.phase.attempt.value.exec, e.e);
      } else if e.refused.Some? {
        FailKeeps(s.owner, e.refused.value, e.clock);
      }
    }
  }

  lemma BeginKeeps(s: State, clock: Clock)
    requires Inv(s)
    ensures Inv(Step(s, Begin(clock))) && Advances(s, Step(s, Begin(clock)))
  {
    hide E.Gone, Finished, E.Inv, Finish, TakeReturned;
    if s.phase.LoopTop? {
      if s.owner.deadline.Some? { FinishKeeps(s, clock); } else { TakeReturnedKeeps(s); }
    }
  }

  lemma CloseKeeps(s: State)
    requires Inv(s)
    ensures Inv(Step(s, Close)) && Advances(s, Step(s, Close))
  {
    hide E.Gone, Finished, E.Inv, TakeReturned;
    if s.phase.Aborting? { TakeReturnedKeeps(s); }
  }

  lemma Unmoved(s: State)
    ensures Advances(s, s)
  {
  }

  lemma StepKeeps(s: State, e: Event)
    requires Inv(s)
    ensures Inv(Step(s, e)) && Advances(s, Step(s, e))
  {
    if e.Reserve? || e.EndStep? || e.Wake? || e.EndDrain? {
      SmallStepKeeps(s, e);
    } else if e.Abort? || e.EndAbort? {
      EndAbortKeeps(s, e);
    } else {
      Unmoved(s);
      hide Inv, Advances, Fail, RequestStop, Finish, StartPending, TakeReturned, StepAttempt, BeginAbort, Answer;
      match e
      case Begin(clock) => BeginKeeps(s, clock);
      case ClaimAnswered(answer) => if s.phase.Claiming? { AnswerKeeps(s, answer); }
      case AfterStep(error, clock) => AfterStepKeeps(s, error, clock);
      case Crash(clock) => CrashKeeps(s, clock);
      case Attempting(ev, clock) =>
        if !s.phase.Aborting? && !s.phase.Done? && !ev.DropHandle? { StepAttemptKeeps(s, ev, clock); }
      case Stop(clock) => StopKeeps(s, clock);
      case Complain(error, clock) =>
        FailKeeps(s.owner, error, clock);
        OwnerKeeps(s, Fail(s.owner, error, clock));
      case DrainTimeout(stopError, clock) => if s.phase.Draining? { BeginAbortKeeps(s, stopError, clock); }
      case Close => CloseKeeps(s);
    }
  }

  lemma StopKeeps(s: State, clock: Clock)
    requires Inv(s)
    ensures var t := s.(owner := RequestStop(s.owner, clock)); Inv(t) && Advances(s, t)
  {
    hide Inv, Advances;
    OwnerKeeps(s, RequestStop(s.owner, clock));
  }

  // ---------------------------------------------------------------- whole runs

  lemma {:induction false} RunKeeps(s: State, es: seq<Event>)
    requires Inv(s)
    ensures Inv(Run(s, es)) && Advances(s, Run(s, es))
    decreases es
  {
    hide Inv, Step;
    if es != [] {
      var t := Step(s, es[0]);
      StepKeeps(s, es[0]);
      RunKeeps(t, es[1..]);
      AdvancesComposes(s, t, Run(t, es[1..]));
    }
  }

  lemma ReadyIsOk(configured: set<Runner>)
    requires Analysis in configured
    ensures Inv(Ready(configured))
  {
  }

  /** In every reachable state the reservation is accounted for by exactly one claim in flight, recorded
  claim, running attempt, finished attempt, aborted attempt or leak. So these exclude each other, each
  implies the reservation, and starting a recorded claim never replaces a live attempt. */
  lemma CapacityIsConserved(configured: set<Runner>, es: seq<Event>)
    requires Analysis in configured
    ensures var s := Run(Ready(configured), es);
            && (Uses(s) == if s.work.reserved then 1 else 0)
            && (s.work.pending.Some? ==> s.work.reserved && s.owner.active.None? && s.owner.returned.None?)
            && (s.owner.active.Some? ==> s.work.reserved && s.owner.returned.None?)
            && (s.owner.returned.Some? ==> s.work.reserved)
  {
    ReadyIsOk(configured);
    RunKeeps(Ready(configured), es);
  }

  /** A claim that was recorded is always started, also when the worker is already stopping: claims start
  in the order in which they were recorded, and a worker that has finished has started all of them. */
  lemma RecordedClaimsAreStarted(configured: set<Runner>, es: seq<Event>)
    requires Analysis in configured
    ensures var s := Run(Ready(configured), es);
            && s.started <= s.recorded && |s.recorded| - |s.started| == One(s.work.pending)
            && (s.phase.Draining? || s.phase.Aborting? || s.phase.Done? ==> s.started == s.recorded)
  {
    ReadyIsOk(configured);
    RunKeeps(Ready(configured), es);
  }

  /** Capacity comes back in two ways only: the claim was refused, or the attempt returned its value and
  left nothing behind, with its child reaped, its cgroup seen empty and its IO tasks finished. */
  lemma CapacityReturnsAfterCleanup(s: State, e: Event)
    requires Inv(s) && s.work.reserved && !Step(s, e).work.reserved
    ensures (s.phase.Claiming? && (e == ClaimAnswered(Contention) || e == ClaimAnswered(Rejected)))
            || (s.owner.returned.Some? && Finished(s.owner.returned.value.exec)
                 && E.Gone(s.owner.returned.value.exec.res)
                && Step(s, e).restored == s.restored + [s.owner.returned.value])
  {
    hide Finished, E.Gone, E.Inv, E.Step, Fail, Observe, RequestStop, Restore;
    assert StartPending(s).work.reserved == s.work.reserved;
    match e
    case Begin(clock) =>
    case ClaimAnswered(answer) =>
    case Close =>
    case Attempting(ev, clock) =>
    case _ =>
  }

  /** An attempt that ended uncleanly, panicked or was aborted, and a claim whose outcome is unknown, keep
  the reservation for good: nothing is claimed, started or restored after that, and the worker stops. */
  lemma {:induction false} LeakIsForever(s: State, es: seq<Event>)
    requires Inv(s) && s.leaked > 0
    ensures var t := Run(s, es);
            && t.work.reserved && t.leaked == 1
            && t.recorded == s.recorded && t.started == s.started && t.restored == s.restored
            && (t.owner.deadline.Some? || t.phase == StepEnded(false))
    decreases es
  {
    hide RunnersOk, AttemptsOk, E.Inv, E.Step, Fail, Finish, Observe, RequestStop;
    if es != [] {
      StepKeeps(s, es[0]);
      LeakStays(s, es[0]);
      LeakIsForever(Step(s, es[0]), es[1..]);
    }
  }

  lemma LeakStays(s: State, e: Event)
    requires Inv(s) && s.leaked > 0
    ensures var t := Step(s, e);
            t.leaked >= 1 && t.recorded == s.recorded && t.started == s.started && t.restored == s.restored
  {
    hide RunnersOk, AttemptsOk, E.Inv, E.Step, Fail, Observe, RequestStop;
    assert s.work.pending.None? && s.owner.active.None? && s.owner.returned.None? && !s.phase.Claiming?;
  }

  /** A committed claim always finds its runner at home. */
  lemma ClaimFindsItsRunner(configured: set<Runner>, es: seq<Event>, claim: int)
    requires Analysis in configured
    ensures var s := Run(Ready(configured), es);
            s.phase.Claiming? ==>
                Answer(s, s.phase.runner, Claimed(claim)).work.pending == Some(Pending(s.phase.runner, claim))
  {
    ReadyIsOk(configured);
    RunKeeps(Ready(configured), es);
  }

  /** A finished worker holds neither a claim nor an attempt nor a runner outside its home. */
  lemma DoneHoldsNothing(configured: set<Runner>, es: seq<Event>)
    requires Analysis in configured
    ensures var s := Run(Ready(configured), es);
            s.phase.Done? ==>
              && s.work.pending.None? && s.owner.active.None? && s.owner.returned.None?
              && s.owner.deadline.Some?
              && (s.work.reserved <==> s.leaked == 1)
  {
    ReadyIsOk(configured);
    RunKeeps(Ready(configured), es);
  }

  /** The common deadline and the first failure are fixed once, whatever stops or fails later. */
  lemma FirstStopWins(configured: set<Runner>, es: seq<Event>, more: seq<Event>)
    requires Analysis in configured
    ensures var s := Run(Ready(configured), es);
            var t := Run(s, more);
            && (s.owner.deadline.Some? ==> t.owner.deadline == s.owner.deadline)
            && (s.owner.failure.Some? ==> t.owner.failure == s.owner.failure)
  {
    ReadyIsOk(configured);
    RunKeeps(Ready(configured), es);
    RunKeeps(Run(Ready(configured), es), more);
  }

  // ---------------------------------------------------------------- the end of a shutdown

  function AbortPolls(now: int, polls: seq<E.ChildPoll>): seq<Event>
    decreases polls
  {
    if polls == [] then [] else [Abort(E.PollCall(now, None, polls[0]))] + AbortPolls(now, polls[1..])
  }

  lemma {:induction false} AbortRuns(s: State, now: int, polls: seq<E.ChildPoll>)
    requires s.phase.Aborting? && s.phase.attempt.Some?
    ensures var a := s.phase.attempt.value;
            Run(s, AbortPolls(now, polls)) == s.(phase := Aborting(Some(a.(exec := E.Polls(a.exec, now, None, polls)))))
    decreases polls
  {
    hide E.Poll;
    if polls == [] {
    } else {
      var a := s.phase.attempt.value;
      var e := Abort(E.PollCall(now, None, polls[0]));
      assert AbortPolls(now, polls)[1..] == AbortPolls(now, polls[1..]);
      AbortRuns(Step(s, e), now, polls[1..]);
    }
  }

  lemma AbortIsOver(s: State, refused: Option<string>, end: Clock)
    requires s.phase.Aborting? && (s.phase.attempt.Some? ==> s.phase.attempt.value.exec.handle.call.Idle?)
    ensures Step(Step(s, EndAbort(refused, end)), Close).phase.Done?
  {
    hide Fail, TakeReturned;
    assert forall t: State :: t.phase.Aborting? && t.phase.attempt.None? ==> Step(t, Close).phase.Done?;
  }

  /** A drain that runs into the deadline ends: with the clock past it, four polls of the abort suffice,
  however the attempt, its child and its IO tasks behave. */
  lemma ShutdownEnds(s: State, stopError: Option<string>, clock: Clock, polls: seq<E.ChildPoll>,
      refused: Option<string>, end: Clock)
    requires Inv(s) && s.phase.Draining? && s.owner.deadline.value <= clock.now && |polls| == 4
    ensures var t := Run(Step(s, DrainTimeout(stopError, clock)), AbortPolls(clock.now, polls));
            Step(Step(t, EndAbort(refused, end)), Close).phase.Done?
  {
    var u := Step(s, DrainTimeout(stopError, clock));
    if s.owner.active.None? {
      assert u.phase == Aborting(None) by { FailKeeps(s.owner, SHUTDOWN_DRAIN_TIMEOUT, clock); }
      hide Inv, Step, Run;
      NothingToAbort(u, clock.now, polls);
      AbortIsOver(u, refused, end);
    } else {
      AbortStarts(s, stopError, clock);
      hide Inv, Step, Run, E.Inv, E.Polls;
      AbortRuns(u, clock.now, polls);
      E.AbortEndsAtItsDeadline(u.phase.attempt.value.exec, clock.now, None, polls);
      AbortIsOver(Run(u, AbortPolls(clock.now, polls)), refused, end);
    }
  }

  lemma AbortStarts(s: State, stopError: Option<string>, clock: Clock)
    requires Inv(s) && s.phase.Draining? && s.owner.active.Some?
    ensures var u := Step(s, DrainTimeout(stopError, clock));
            && u.phase.Aborting? && u.phase.attempt.Some?
            && E.Inv(u.phase.attempt.value.exec)
            && u.phase.attempt.value.exec.handle.call == E.Aborting(E.Observing, s.owner.deadline.value)
  {
    hide E.Inv, Fail;
    StepKeeps(s, DrainTimeout(stopError, clock));
    FailKeeps(s.owner, SHUTDOWN_DRAIN_TIMEOUT, clock);
  }

  lemma {:induction false} NothingToAbort(s: State, now: int, polls: seq<E.ChildPoll>)
    requires s.phase == Aborting(None)
    ensures Run(s, AbortPolls(now, polls)) == s
    decreases polls
  {
    if polls != [] {
      assert AbortPolls(now, polls)[1..] == AbortPolls(now, polls[1..]);
      NothingToAbort(s, now, polls[1..]);
    }
  }

  // ---------------------------------------------------------------- all tasks of the drain

  /** The handles that `drain_tasks` aborts one after the other, the present one and those still to come, each with
  the error of its emergency stop. */
  datatype Drain = Drain(current: E.Execution, waiting: seq<(E.Execution, Option<string>)>)

  /** The abort of one handle, whose last call of `completed` was dropped with the select loop. */
  function Aborted(handle: (E.Execution, Option<string>), limit: int): E.Execution {
    E.Step(E.Step(handle.0, E.DropCall), E.CallAbort(limit, handle.1))
  }

  /** One poll of `drain_tasks`; the next abort begins with the end of the one before. */
  function PollDrain(d: Drain, limit: int, now: int, overall: Option<int>, poll: E.ChildPoll): Drain {
    var x := E.Poll(d.current, now, overall, poll);
    if x.handle.call.Idle? && d.waiting != [] then Drain(Aborted(d.waiting[0], limit), d.waiting[1..])
    else Drain(x, d.waiting)
  }

  function PollsDrain(d: Drain, limit: int, now: int, overall: Option<int>, polls: seq<E.ChildPoll>): Drain
    decreases polls
  {
    if polls == [] then d else PollsDrain(PollDrain(d, limit, now, overall, polls[0]), limit, now, overall, polls[1..])
  }

  predicate IsOver(d: Drain) { d.waiting == [] && d.current.handle.call.Idle? }

  /** Every handle is one that somebody still owns; the present one is being aborted, or is done. */
  ghost predicate DrainOk(d: Drain, limit: int, now: int) {
    && E.Inv(d.current) && (d.current.handle.call.Idle? ==> d.waiting == [])
    && (!d.current.handle.call.Idle? ==>
          if d.current.handle.call.at.Observing? then d.current.handle.call == E.Aborting(E.Observing, limit)
          else E.PastDeadline(d.current, now))
    && forall h | h in d.waiting :: E.Inv(h.0) && !h.0.handle.dropped
  }

  function DrainLeft(d: Drain): nat {
    (if d.current.handle.call.Idle? then 0 else E.PollsLeft(d.current.handle.call.at)) + 4 * |d.waiting|
  }

  lemma AbortedIsOk(handle: (E.Execution, Option<string>), limit: int)
    requires E.Inv(handle.0) && !handle.0.handle.dropped
    ensures E.Inv(Aborted(handle, limit)) && Aborted(handle, limit).handle.call == E.Aborting(E.Observing, limit)
  {
    E.StepKeeps(handle.0, E.DropCall);
    E.StepKeeps(E.Step(handle.0, E.DropCall), E.CallAbort(limit, handle.1));
    hide E.Inv;
  }

  lemma PollDrainAdvances(d: Drain, limit: int, now: int, overall: Option<int>, poll: E.ChildPoll)
    requires DrainOk(d, limit, now) && limit <= now && !IsOver(d)
    ensures DrainOk(PollDrain(d, limit, now, overall, poll), limit, now)
    ensures DrainLeft(PollDrain(d, limit, now, overall, poll)) < DrainLeft(d)
  {
    var x := E.Poll(d.current, now, overall, poll);
    E.PollKeeps(d.current, now, overall, poll);
    if d.current.handle.call.at.Observing? {
      E.AbortLeavesObserving(d.current, now, overall, poll);
    } else {
      E.PollsTowardsItsEnd(d.current, now, overall, poll);
    }
    if x.handle.call.Idle? && d.waiting != [] {
      AbortedIsOk(d.waiting[0], limit);
    }
    hide E.Inv, E.Poll, E.PastDeadline, E.Step;
  }

  /** Past the common deadline the whole drain ends: four polls for every task that was still running, however
  the tasks, their children and their IO behave. */
  lemma {:induction false} DrainEnds(d: Drain, limit: int, now: int, overall: Option<int>, polls: seq<E.ChildPoll>)
    requires DrainOk(d, limit, now) && limit <= now && DrainLeft(d) <= |polls|
    ensures exists n :: 0 <= n <= DrainLeft(d) && IsOver(PollsDrain(d, limit, now, overall, polls[..n]))
    decreases polls
  {
    hide E.Inv, PollDrain, DrainOk, E.PastDeadline;
    if IsOver(d) {
      assert PollsDrain(d, limit, now, overall, polls[..0]) == d;
    } else {
      assert DrainLeft(d) > 0 by { PollDrainAdvances(d, limit, now, overall, E.Waiting); }
      PollDrainAdvances(d, limit, now, overall, polls[0]);
      var next := PollDrain(d, limit, now, overall, polls[0]);
      DrainEnds(next, limit, now, overall, polls[1..]);
      var n :| 0 <= n <= DrainLeft(next) && IsOver(PollsDrain(next, limit, now, overall, polls[1..][..n]));
      assert polls[..n + 1][1..] == polls[1..][..n] && polls[..n + 1][0] == polls[0];
      assert PollsDrain(d, limit, now, overall, polls[..n + 1])
               == PollsDrain(next, limit, now, overall, polls[1..][..n]);
    }
  }

  /** `drain_tasks` after its timeout: attempt, reconciliation and listener, as far as they were running, are aborted
  within four polls each. */
  lemma DrainTasksEnd(handles: seq<(E.Execution, Option<string>)>, limit: int, now: int, overall: Option<int>,
      polls: seq<E.ChildPoll>)
    requires handles != [] && (forall h | h in handles :: E.Inv(h.0) && !h.0.handle.dropped)
    requires limit <= now && 4 * |handles| <= |polls|
    ensures var d := Drain(Aborted(handles[0], limit), handles[1..]);
            exists n :: 0 <= n <= 4 * |handles| && IsOver(PollsDrain(d, limit, now, overall, polls[..n]))
  {
    var d := Drain(Aborted(handles[0], limit), handles[1..]);
    AbortedIsOk(handles[0], limit);
    hide E.Inv, E.Step;
    assert DrainOk(d, limit, now);
    DrainEnds(d, limit, now, overall, polls);
  }
}
