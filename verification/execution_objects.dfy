/** The objects behind `Execution`: the shared resources of one scope, the guard of its child and the
handle of its task. Each method is one stretch of the source between two awaits, and is tied to the
step of the state machine it performs. */
module ExecutionObjects {
  import opened Wrappers
  import opened E = Execution

  /** `Resources` of the source with its `Metadata`. The ghost fields are the bookkeeping of the model. */
  class Scope {
    var registered: bool
    var child: bool
    var auxiliary: seq<bool>
    var failure: Option<Kind>
    var returned: bool
    var recovering: bool
    ghost var guard: Guard
    ghost var reaped: bool
    ghost var emptied: bool
    ghost var killed: bool
    ghost var freed: bool

    ghost function View(): Resources
      reads this
    {
      Resources(Metadata(registered, child, auxiliary, failure), guard, returned, recovering, reaped, emptied, killed,
                freed)
    }

    constructor ()
      ensures View() == Spawned().res
    {
      registered, child, auxiliary, failure := false, false, [], None;
      returned, recovering := false, false;
      guard, reaped, emptied, killed, freed := NoGuard, false, false, false, false;
    }

    method CleanupState() returns (state: CleanupState)
      ensures state == StateOf(View().meta)
    {
      if failure.Some? {
        return Failed(failure.value);
      }
      var unfinished := child;
      for i := 0 to |auxiliary|
        invariant unfinished <==> child || false in auxiliary[..i]
      {
        if !auxiliary[i] {
          unfinished := true;
        }
        assert auxiliary[..i + 1] == auxiliary[..i] + [auxiliary[i]];
      }
      assert auxiliary[..|auxiliary|] == auxiliary;
      state := if unfinished then Pending else Clean;
    }

    method EmergencyStop()
      modifies this`killed
      ensures View() == E.EmergencyStop(old(View()))
    {
      if child {
        killed := true;
      }
    }

    /** `Drop` of the resources, with the children they still hold. */
    method Drop()
      modifies this
      ensures View() == Free(old(View()))
    {
      EmergencyStop();
      if returned || recovering {
        killed := true;
      }
      returned, recovering := false, false;
      freed := true;
    }

    /** `register_child`. */
    method RegisterChild() returns (accepted: bool)
      modifies this
      ensures accepted == !old(registered)
      ensures View() == Register(old(View()))
    {
      accepted := !registered;
      if accepted {
        registered, child := true, true;
        guard := Unverified;
      }
    }

    /** `ChildRegistration::recover`. */
    method Recover()
      requires guard.Unverified?
      modifies this
      ensures View() == DropGuard(old(View()))
    {
      guard := NoGuard;
      if !returned {
        returned := true;
      } else {
        failure := Some(CHILD_CLEANUP_OWNERSHIP);
        killed := true;
      }
    }
  }

  /** `RecoverableChild`: `live` is the wait handle of the process, `registration` the tie to the scope. A
  refused registration leaves a guard that stops its process when it is dropped. */
  class RecoverableChild {
    const scope: Scope
    var live: bool
    var registration: bool
    var verified: bool

    ghost predicate Valid()
      reads this, scope
    {
      && (live && registration ==> scope.guard == if verified then Verified else Unverified)
      && (live && registration ==> scope.registered)
    }

    constructor (scope: Scope)
      modifies scope
      ensures Valid() && this.scope == scope && live
      ensures registration == !old(scope.registered)
      ensures scope.View() == Register(old(scope.View()))
    {
      this.scope := scope;
      live, verified := true, false;
      var accepted := scope.RegisterChild();
      registration := accepted;
    }

    /** `verify_cleanup`: `exited` is what `try_wait` saw, `empty` what the cgroup reported. */
    method VerifyCleanup(exited: bool, empty: bool) returns (ok: bool)
      requires Valid() && live && registration
      modifies this`verified, scope
      ensures Valid() && live == old(live) && registration == old(registration)
      ensures ok == (exited && empty)
      ensures scope.View() == Verify(old(scope.View()), exited, empty)
    {
      scope.reaped := scope.reaped || exited;
      ok := exited && empty;
      if ok {
        scope.emptied := true;
        verified := true;
        scope.child := false;
        scope.guard := Verified;
      }
    }

    /** `Drop`: a verified child is just released, an unverified one goes back to its scope. */
    method Drop()
      requires Valid()
      modifies this, scope
      ensures Valid() && !live
      ensures scope.View() == if old(live && registration) then DropGuard(old(scope.View())) else old(scope.View())
    {
      if live {
        live := false;
        if registration {
          registration := false;
          if verified {
            scope.guard := NoGuard;
          } else {
            scope.Recover();
          }
        }
      }
    }
  }

  /** `ExecutionHandle`. `future` and `aborted` stand for the spawned task and its abort flag, `call` for
  the place where a call of the handle is suspended. */
  class ExecutionHandle {
    const scope: Scope
    var future: Future
    var aborted: bool
    var task: bool
    var result: Option<Completion>
    var shutdown: bool
    var deadline: Option<int>
    var finished: bool
    var call: Call
    var dropped: bool
    ghost var log: seq<Completion>

    ghost function View(): Execution
      reads this, scope
    {
      Execution.Execution(scope.View(), future, Handle(task, result, deadline, finished, call, dropped), shutdown,
                          aborted, log)
    }

    constructor ()
      ensures fresh(scope) && View() == Spawned()
    {
      scope := new Scope();
      future, aborted, task, result := Live, false, true, None;
      shutdown, deadline, finished, call, dropped, log := false, None, false, Idle, false, [];
    }

    method FailCleanup(kind: Kind)
      modifies this`shutdown, scope
      ensures View() == E.FailCleanup(old(View()), kind)
    {
      if scope.failure.None? {
        scope.failure := Some(kind);
      }
      shutdown := true;
      scope.EmergencyStop();
    }

    /** The last line of `completed`. */
    method TakeResult() returns (answer: Completion)
      modifies this`result, this`call, this`log
      ensures View() == Deliver(old(View()))
      ensures log == old(log) + [answer]
    {
      answer := if result.Some? then result.value else AlreadyCompleted;
      result, call := None, Idle;
      log := log + [answer];
    }

    method BeginAbort(limit: int, stopError: Option<Kind>)
      requires call.Idle?
      modifies this, scope
      ensures View() == E.BeginAbort(old(View()), limit, stopError)
    {
      shutdown := true;
      scope.EmergencyStop();
      aborted := true;
      if stopError.Some? {
        FailCleanup(stopError.value);
      }
      call := Aborting(Observing, limit);
    }

    /** `Drop` of the handle. */
    method Drop()
      requires !dropped
      modifies this, scope
      ensures View() == Abandon(old(View()))
    {
      call, dropped := Idle, true;
      var state := scope.CleanupState();
      if task || state != Clean {
        scope.EmergencyStop();
        if task {
          aborted := true;
        }
      }
    }

    method Suspend(at: Await)
      requires !call.Idle?
      modifies this`call
      ensures View() == At(old(View()), at)
    {
      call := if call.Completing? then Completing(at) else Aborting(at, call.limit);
    }

    method EnterCleanup(now: int, overall: Option<int>)
      requires !call.Idle?
      modifies this, scope
      ensures View() == E.EnterCleanup(old(View()), now, overall)
    {
      if call.Completing? {
        if finished {
          var _ := TakeResult();
          return;
        }
        if deadline.None? {
          if overall.None? {
            FailCleanup(CHILD_STOP_TIMEOUT_BOUND);
            finished := true;
            var _ := TakeResult();
            return;
          }
          deadline := overall;
        }
        var state := scope.CleanupState();
        if state != Clean {
          shutdown := true;
        }
      } else {
        var limit := call.limit;
        deadline := Some(if deadline.Some? && deadline.value < limit then deadline.value else limit);
      }
      Suspend(Locking);
    }

    method LeaveCleanup(error: Option<Kind>)
      requires !call.Idle?
      modifies this, scope
      ensures View() == E.LeaveCleanup(old(View()), error)
    {
      if error.Some? {
        FailCleanup(error.value);
      }
      if call.Completing? {
        finished := true;
        var _ := TakeResult();
      } else {
        call := Idle;
      }
    }

    method PollObserving(now: int, overall: Option<int>)
      requires !call.Idle?
      modifies this, scope
      ensures View() == E.PollObserving(old(View()), now, overall)
    {
      if result.Some? {
        EnterCleanup(now, overall);
      } else if !task {
        if call.Completing? {
          var _ := TakeResult();
        } else {
          EnterCleanup(now, overall);
        }
      } else if future.Ended? {
        if !future.result.Value? {
          shutdown := true;
        }
        result := Some(future.result);
        task := false;
        EnterCleanup(now, overall);
      } else if call.Aborting? && now >= call.limit {
        FailCleanup(EXECUTION_ABORT_TIMEOUT);
        call := Idle;
      }
    }

    method PollLocking()
      requires !call.Idle?
      modifies this`call, scope
      ensures View() == E.PollLocking(old(View()))
    {
      if !scope.recovering {
        scope.recovering := scope.returned;
        scope.returned := false;
      }
      if scope.recovering {
        Suspend(Child);
      } else if scope.child {
        Suspend(Auxiliary(Some(CHILD_CLEANUP_OWNERSHIP)));
      } else {
        Suspend(Auxiliary(None));
      }
    }

    method PollChild(poll: ChildPoll)
      requires !call.Idle?
      modifies this`call, scope
      ensures View() == E.PollChild(old(View()), poll)
    {
      match poll
      case Waiting =>
      case Stopped =>
        scope.child := false;
        scope.recovering := false;
        scope.reaped, scope.emptied := true, true;
        Suspend(Auxiliary(None));
      case Unstopped(reaped, kind) =>
        scope.reaped := scope.reaped || reaped;
        Suspend(Auxiliary(Some(kind)));
    }

    method Poll(now: int, overall: Option<int>, poll: ChildPoll)
      modifies this, scope
      ensures View() == E.Poll(old(View()), now, overall, poll)
    {
      if call.Idle? {
        return;
      }
      match call.at
      case Observing => PollObserving(now, overall);
      case Locking => PollLocking();
      case Child =>
        if poll.Waiting? && deadline.Some? && now >= deadline.value {
          LeaveCleanup(Some(EXECUTION_CLEANUP_TIMEOUT));
        } else {
          PollChild(poll);
        }
      case Auxiliary(error) =>
        if !(false in scope.auxiliary) {
          LeaveCleanup(error);
        } else if deadline.Some? && now >= deadline.value {
          LeaveCleanup(Some(EXECUTION_CLEANUP_TIMEOUT));
        }
    }
  }
}
