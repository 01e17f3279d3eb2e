/** The objects behind `WorkerRuntime`: the budget, the business state that owns it, and the lifecycle
owner, whose methods update their fields in place. */
module WorkerObjects {
  import opened Wrappers
  import opened W = WorkerRuntime
  import E = Execution

  class ResourceBudget {
    var reserved: bool

    constructor ()
      ensures !reserved
    {
      reserved := false;
    }

    /** Refuses a second reservation and leaves the first one alone. */
    method Reserve() returns (granted: bool)
      modifies this
      ensures reserved && granted == !old(reserved)
    {
      granted := !reserved;
      reserved := true;
    }

    method Release()
      modifies this
      ensures !reserved
    {
      reserved := false;
    }
  }

  class WorkState {
    const resources: ResourceBudget
    var pending: Option<Pending>
    var ocr: bool
    var analysis: bool

    ghost function View(): Work
      reads this, resources
    {
      Work(resources.reserved, pending, (if ocr then {Ocr} else {}) + (if analysis then {Analysis} else {}))
    }

    constructor (ocr: bool)
      ensures fresh(resources)
      ensures View() == Ready(if ocr then {Ocr, Analysis} else {Analysis}).work
    {
      resources := new ResourceBudget();
      pending := None;
      this.ocr, analysis := ocr, true;
    }

    method Restore(runner: Runner)
      modifies this`ocr, this`analysis, resources
      ensures View() == W.Restore(old(View()), runner)
    {
      resources.Release();
      match runner
      case Analysis => analysis := true;
      case Ocr => ocr := true;
    }

    /** `start_ocr` and `start_analysis`: the claim is recorded together with the runner it takes. */
    method Record(runner: Runner, claim: int) returns (recorded: bool)
      requires resources.reserved && pending.None?
      modifies this
      ensures recorded == (runner in old(View()).home)
      ensures View() == if recorded then Work(true, Some(Pending(runner, claim)), old(View()).home - {runner})
                        else old(View())
    {
      match runner {
        case Analysis =>
          recorded := analysis;
          analysis := false;
        case Ocr =>
          recorded := ocr;
          ocr := false;
      }
      if recorded {
        pending := Some(Pending(runner, claim));
      }
      assert View().home == if recorded then old(View()).home - {runner} else old(View()).home;
    }
  }

  class Runtime {
    var deadline: Option<int>
    var failure: Option<string>
    var active: Option<Attempt>
    var returned: Option<Attempt>

    ghost function View(): Owner
      reads this
    {
      Owner(deadline, failure, active, returned)
    }

    constructor ()
      ensures View() == Ready({}).owner
    {
      deadline, failure, active, returned := None, None, None, None;
    }

    method RequestStop(clock: Clock)
      modifies this`deadline, this`failure
      ensures View() == W.RequestStop(old(View()), clock)
    {
      if deadline.None? {
        deadline := clock.drained;
        if deadline.None? {
          deadline := Some(clock.now);
          if failure.None? {
            failure := Some(SHUTDOWN_DRAIN_BUDGET_BOUND);
          }
        }
      }
    }

    method Fail(error: string, clock: Clock)
      modifies this`deadline, this`failure
      ensures View() == W.Fail(old(View()), error, clock)
    {
      if failure.None? {
        failure := Some(error);
      }
      RequestStop(clock);
    }

    /** `runtime.start_attempt(work.pending.take())`. The old handle is gone for good, so there must be
    none; `CapacityIsConserved` shows that there never is. */
    method StartPending(work: WorkState)
      requires work.pending.Some? ==> active.None?
      modifies this`active, work`pending
      ensures work.View() == old(work.View()).(pending := None)
      ensures View() == if old(work.pending).Some? then StartAttempt(old(View()), old(work.pending).value)
                        else old(View())
    {
      if work.pending.Some? {
        active := Some(Attempt(work.pending.value.runner, work.pending.value.claim, E.Spawned()));
        work.pending := None;
      }
    }

    /** The arm of `observe` for a completed attempt. */
    method ObserveCompleted(done: Attempt, clock: Clock)
      requires done.exec.log != []
      modifies this
      ensures View() == Observe(old(View()), done, clock)
    {
      var clean := E.StateOf(done.exec.res.meta) == E.Clean;
      active := None;
      match done.exec.log[0] {
        case Value(result) =>
          if clean {
            returned := Some(done);
          }
          if result != "" {
            Fail(result, clock);
          }
        case _ =>
          Fail(EXECUTION, clock);
      }
      if !clean {
        Fail(CLEANUP_FAILED, clock);
      }
    }

    method TakeReturned(work: WorkState)
      modifies this`returned, work`ocr, work`analysis, work.resources
      ensures View() == old(View()).(returned := None)
      ensures work.View() == if old(returned).Some? then W.Restore(old(work.View()), old(returned).value.runner)
                             else old(work.View())
    {
      if returned.Some? {
        var runner := returned.value.runner;
        returned := None;
        work.Restore(runner);
      }
    }
  }
}
