/** When the worker stops: exactly which ends of an attempt, and which other events, request it. */
module WorkerVerdicts {
  import opened Wrappers
  import E = Execution
  import opened W = WorkerRuntime

  const SUCCESS := ""

  /** What an end of an attempt is reported as: its own error, a panic or abort, or a success that left something
  behind. */
  function Reason(exec: E.Execution): Option<string>
    requires exec.log != []
  {
    match exec.log[0]
    case Value(v) =>
      if v != SUCCESS then Some(v)
      else if E.StateOf(exec.res.meta).Clean? then None
      else Some(CLEANUP_FAILED)
    case _ => Some(EXECUTION)
  }

  predicate IsQuiet(owner: Owner) { owner.deadline.None? && owner.failure.None? }

  /** The end of an attempt stops a worker exactly if it is not a clean success, with that end as the first failure;
  the handle is gone, and the runner comes back exactly with its value and nothing left behind. */
  lemma AttemptVerdict(owner: Owner, done: Attempt, clock: Clock)
    requires done.exec.log != [] && IsQuiet(owner)
    ensures var next := Observe(owner, done, clock);
            && (IsQuiet(next) <==> done.exec.log[0] == E.Value(SUCCESS) && E.StateOf(done.exec.res.meta).Clean?)
            && next.failure == Reason(done.exec)
            && (next.deadline.Some? <==> next.failure.Some?)
            && (next.deadline.Some? ==> next.deadline == if clock.drained.Some? then clock.drained else Some(clock.now))
            && next.active.None?
            && next.returned == (if done.exec.log[0].Value? && E.StateOf(done.exec.res.meta).Clean? then Some(done)
                                 else owner.returned)
  {
  }

  /** A worker that is stopping keeps its deadline and its first failure, whatever an attempt ends with. */
  lemma LaterEndsAddNothing(owner: Owner, done: Attempt, clock: Clock)
    requires done.exec.log != [] && owner.deadline.Some?
    ensures var next := Observe(owner, done, clock);
            && next.deadline == owner.deadline
            && next.failure == if owner.failure.Some? then owner.failure else Reason(done.exec)
  {
  }

  /** What asks the worker to stop. */
  predicate IsCause(s: State, e: Event) {
    match e
    case Stop(_) => !s.phase.Done?
    case Complain(_, _) => !s.phase.Done?
    case Crash(_) => !s.phase.Draining? && !s.phase.Aborting? && !s.phase.Done?
    case AfterStep(_, _) => s.phase == StepEnded(false)
    case Attempting(ev, _) =>
      && !s.phase.Aborting? && !s.phase.Done? && !ev.CallAbort? && !ev.DropHandle? && s.owner.active.Some?
      && var exec := E.Step(s.owner.active.value.exec, ev);
         exec.log != [] && Reason(exec).Some?
    case _ => false
  }

  lemma AttemptingStops(s: State, ev: E.Event, clock: Clock)
    requires s.owner.deadline.None? && s.owner.failure.None?
    ensures !s.phase.Aborting? && !s.phase.Done? && !ev.CallAbort? && !ev.DropHandle? ==>
              (IsQuiet(StepAttempt(s, ev, clock).owner) <==> !IsCause(s, Attempting(ev, clock)))
    ensures StepAttempt(s, ev, clock).owner.deadline.None? ==> IsQuiet(StepAttempt(s, ev, clock).owner)
  {
    if s.owner.active.Some? {
      var a := s.owner.active.value;
      var next := a.(exec := E.Step(a.exec, ev));
      if next.exec.log != [] {
        AttemptVerdict(s.owner, next, clock);
      }
    }
    hide E.Step, Observe, Reason, E.StateOf;
  }

  /** A running worker goes on through every event that is no such cause, and stops with every one that is. */
  lemma StopsIff(s: State, e: Event)
    requires Inv(s) && IsQuiet(s.owner)
    ensures var t := Step(s, e);
            && (t.owner.deadline.Some? <==> IsCause(s, e))
            && (t.owner.deadline.None? ==> IsQuiet(t.owner))
  {
    match e
    case Attempting(ev, clock) =>
      AttemptingStops(s, ev, clock);
      hide StepAttempt, Reason, E.Step, Inv;
    case _ =>
      hide E.Inv, E.Gone, Finished, E.Step, Reason, Observe;
  }

  /** The first failure of a stopped worker is the reason of what stopped it. */
  lemma FirstFailure(s: State, e: Event)
    requires Inv(s) && IsQuiet(s.owner) && IsCause(s, e)
    ensures var failure := Step(s, e).owner.failure;
            match e
            case Complain(error, _) => failure == Some(error)
            case AfterStep(error, _) => failure == Some(error)
            case Crash(_) => failure == Some(PANICKED)
            case Stop(clock) => failure == if clock.drained.None? then Some(SHUTDOWN_DRAIN_BUDGET_BOUND) else None
            case Attempting(ev, _) => failure == Reason(E.Step(s.owner.active.value.exec, ev))
            case _ => true
  {
    match e
    case Attempting(ev, clock) =>
      var a := s.owner.active.value;
      AttemptVerdict(s.owner, a.(exec := E.Step(a.exec, ev)), clock);
      hide Observe, Reason, E.Step, Inv;
    case _ =>
      hide E.Inv, E.Gone, Finished, E.Step, Reason, Observe, Inv;
  }

  lemma {:induction false} RunAppends(s: State, es: seq<Event>, e: Event)
    ensures Run(s, es + [e]) == Step(Run(s, es), e)
    decreases es
  {
    hide Step;
    if es == [] {
      assert [] + [e] == [e] && [e][1..] == [];
      assert Run(s, [e]) == Run(Step(s, e), []);
    } else {
      assert (es + [e])[1..] == es[1..] + [e];
      RunAppends(Step(s, es[0]), es[1..], e);
    }
  }

  /** Over whole runs: a worker is stopping exactly if the run holds such a cause. In particular, without stop
  requests, complaints, crashes and failed steps it runs on for as long as its attempts end in clean success. */
  lemma {:induction false} WorkerStopsIff(configured: set<Runner>, es: seq<Event>)
    requires Analysis in configured
    ensures var s := Run(Ready(configured), es);
            && (s.owner.deadline.Some? <==> exists i ::
                 0 <= i < |es| && IsCause(Run(Ready(configured), es[..i]), es[i]))
            && (s.owner.deadline.None? ==> s.owner.failure.None?)
    decreases |es|
  {
    hide Step, IsCause, Inv;
    var start := Ready(configured);
    if es != [] {
      var (front, e) := (es[..|es| - 1], es[|es| - 1]);
      var s := Run(start, front);
      assert es == front + [e];
      RunAppends(start, front, e);
      WorkerStopsIff(configured, front);
      ReadyIsOk(configured);
      RunKeeps(start, front);
      StepKeeps(s, e);
      if s.owner.deadline.None? {
        StopsIff(s, e);
      }
      forall i | 0 <= i < |front| ensures front[..i] == es[..i] && front[i] == es[i] {
      }
      if IsCause(s, e) {
        assert es[..|front|] == front && es[|front|] == e;
      }
      if s.owner.deadline.Some? {
        var i :| 0 <= i < |front| && IsCause(Run(start, front[..i]), front[i]);
        assert es[..i] == front[..i];
      }
    }
  }

  // ---------------------------------------------------------------- one round

  lemma RunThree(s: State, a: Event, b: Event, c: Event)
    ensures Run(s, [a, b, c]) == Step(Step(Step(s, a), b), c)
  {
    hide Step;
    assert [a, b, c][1..] == [b, c] && [b, c][1..] == [c] && [c][1..] == [];
    assert Run(Step(Step(s, a), b), [c]) == Run(Step(Step(Step(s, a), b), c), []);
    assert Run(Step(s, a), [b, c]) == Run(Step(Step(s, a), b), [c]);
  }

  /** From the top of the loop of an idle worker, a committed claim is running when the loop is back there: with its
  runner, under the one reservation, and nothing else has moved. */
  lemma ClaimIsRun(s: State, runner: Runner, claim: int, clock: Clock)
    requires Inv(s) && s.phase.LoopTop? && s.owner.deadline.None? && !s.work.reserved && runner in s.configured
    ensures var found := Run(s, [Begin(clock), Reserve(runner), ClaimAnswered(Claimed(claim))]);
            var t := Run(found, [EndStep(true), AfterStep("", clock), Wake]);
            && found.work.pending == Some(Pending(runner, claim)) && found.phase.Scanning?
            && t.phase.LoopTop? && t.owner == s.owner.(active := Some(Attempt(runner, claim, E.Spawned())))
            && t.work == Work(true, None, s.configured - {runner})
            && t.recorded == s.recorded + [claim] && t.started == s.started + [claim] && t.leaked == s.leaked
  {
    hide E.Inv, E.Gone, Finished;
    assert s.work.pending.None? && s.owner.active.None? && s.owner.returned.None? && s.work.home == s.configured;
    RunThree(s, Begin(clock), Reserve(runner), ClaimAnswered(Claimed(claim)));
    var found := s.(work := Work(true, Some(Pending(runner, claim)), s.configured - {runner}), phase := Scanning,
                    recorded := s.recorded + [claim]);
    RunThree(found, EndStep(true), AfterStep("", clock), Wake);
    hide Run;
  }

  /** An attempt that ends in clean success gives reservation and runner back at the next top of the loop. */
  lemma RunnerComesHome(s: State, ev: E.Event, clock: Clock)
    requires Inv(s) && s.phase.LoopTop? && IsQuiet(s.owner) && s.owner.active.Some? && !ev.CallAbort? && !ev.DropHandle?
    requires var exec := E.Step(s.owner.active.value.exec, ev); exec.log != [] && Reason(exec).None?
    ensures var a := s.owner.active.value.(exec := E.Step(s.owner.active.value.exec, ev));
            var t := Step(Step(s, Attempting(ev, clock)), Begin(clock));
            && t.phase.Scanning? && t.work == Work(false, s.work.pending, s.configured)
            && t.owner.active.None? && t.owner.returned.None? && IsQuiet(t.owner) && t.restored == s.restored + [a]
  {
    var a := s.owner.active.value.(exec := E.Step(s.owner.active.value.exec, ev));
    AttemptVerdict(s.owner, a, clock);
    hide E.Inv, E.Gone, E.Step, E.StateOf;
  }

  /** A refused claim gives the reservation back at once, and a failed step hands the claim it had recorded over. */
  lemma StepsThatClaimNothing(s: State, runner: Runner, answer: ClaimAnswer)
    requires s.phase == Claiming(runner) && (answer.Contention? || answer.Rejected?)
    ensures Step(s, ClaimAnswered(answer)) == s.(phase := Scanning, work := s.work.(reserved := false))
  {
  }

  /** A failed step starts the claim it had recorded before it drains. */
  lemma FailedStepStartsItsClaim(s: State, pending: Pending, error: string, clock: Clock)
    requires s.phase == StepEnded(false) && s.work.pending == Some(pending)
    ensures var t := Step(s, AfterStep(error, clock));
            && t.phase.Draining? && t.owner.deadline.Some? && t.work.pending.None?
            && t.owner.active == Some(Attempt(pending.runner, pending.claim, E.Spawned()))
  {
  }

  /** A drain that runs into the deadline is a failure, whether or not an attempt is left, and so is a refused abort. */
  lemma ShutdownFailures(s: State, stopError: Option<string>, refused: Option<string>, clock: Clock)
    ensures s.phase.Draining? ==>
              var t := Step(s, DrainTimeout(stopError, clock));
              && t.phase.Aborting? && t.owner.active.None?
              && t.owner.failure == if s.owner.failure.Some? then s.owner.failure else Some(SHUTDOWN_DRAIN_TIMEOUT)
    ensures s.phase.Aborting? && s.phase.attempt.Some? && s.phase.attempt.value.exec.handle.call.Idle? ==>
              var t := Step(s, EndAbort(refused, clock));
              && t.phase == Aborting(None)
              && t.owner.failure == if s.owner.failure.Some? || refused.None? then s.owner.failure else refused
  {
    hide E.Step;
  }
}
