/** Heavy blocking work under one permit.

A caller waits for the permit, marks work as pending and hands the operation with the permit to the blocking
pool; what ends the operation clears the mark and then frees the permit. Callers may be dropped at every
await. Each event is one indivisible step of one thread, so a run is any interleaving. */
module Blocking {
  import opened Wrappers

  type Caller = nat

  /** Where a call of `run` is. `Assigned` has been given the permit but not been polled since; from `Queued`
  on the blocking pool owns the operation, and `Cleared` has dropped all but the permit. */
  datatype Phase = Waiting | Assigned | Admitted | Marked | Queued | Running | Ended | Cleared | Done

  /** `setBy` is bookkeeping: whose mark `pending` shows. */
  datatype State = State(permit: Option<Caller>, pending: bool, calls: map<Caller, Phase>, setBy: Option<Caller>)

  datatype Event =
    | Arrive(caller: Caller)
    | Assign(caller: Caller)
    | Admit(caller: Caller)
    | Mark(caller: Caller)
    | Spawn(caller: Caller)
    | Start(caller: Caller)
    | End(caller: Caller)
    | Discard(caller: Caller)
    | Clear(caller: Caller)
    | Release(caller: Caller)
    | Drop(caller: Caller)

  /** The order in which a finished operation gives things back; `PendingWork` clears first. */
  datatype Order = ClearFirst | ReleaseFirst

  const IDLE := State(None, false, map[], None)

  function To(s: State, c: Caller, phase: Phase): State { s.(calls := s.calls[c := phase]) }

  function Step(order: Order, s: State, e: Event): State {
    if e.Arrive? then (if e.caller in s.calls then s else To(s, e.caller, Waiting))
    else if e.caller !in s.calls then s
    else
      var (c, phase) := (e.caller, s.calls[e.caller]);
      match e
      case Assign(_) => if phase.Waiting? && s.permit.None? then To(s, c, Assigned).(permit := Some(c)) else s
      case Admit(_) => if phase.Assigned? then To(s, c, Admitted) else s
      case Mark(_) => if phase.Admitted? then To(s, c, Marked).(pending := true, setBy := Some(c)) else s
      case Spawn(_) => if phase.Marked? then To(s, c, Queued) else s
      case Start(_) => if phase.Queued? then To(s, c, Running) else s
      case End(_) => if phase.Running? then To(s, c, Ended) else s
      case Discard(_) => if phase.Queued? then To(s, c, Ended) else s
      case Clear(_) =>
        if phase == (if order.ClearFirst? then Ended else Cleared)
        then To(s, c, if order.ClearFirst? then Cleared else Done).(pending := false, setBy := None) else s
      case Release(_) =>
        if phase == (if order.ClearFirst? then Cleared else Ended)
        then To(s, c, if order.ClearFirst? then Done else Cleared).(permit := None) else s
      case Drop(_) =>
        if phase.Waiting? then To(s, c, Done)
        else if phase.Assigned? then To(s, c, Done).(permit := None)
        else s
  }

  function Run(order: Order, s: State, es: seq<Event>): State
    decreases es
  {
    if es == [] then s else Run(order, Step(order, s, es[0]), es[1..])
  }

  /** Between being given the permit and giving it back. */
  predicate HasPermit(p: Phase) { !p.Waiting? && !p.Done? }

  /** Between the mark and its clearing. */
  predicate HasMark(p: Phase) { p.Marked? || p.Queued? || p.Running? || p.Ended? }

  ghost predicate Inv(s: State) {
    && (forall c | c in s.calls && HasPermit(s.calls[c]) :: s.permit == Some(c))
    && (s.permit.Some? ==> s.permit.value in s.calls && HasPermit(s.calls[s.permit.value]))
    && (s.pending <==> s.permit.Some? && HasMark(s.calls[s.permit.value]))
    && s.setBy == (if s.pending then s.permit else None)
  }

  lemma StepKeeps(s: State, e: Event)
    requires Inv(s)
    ensures Inv(Step(ClearFirst, s, e))
  {
  }

  lemma {:induction false} RunKeeps(s: State, es: seq<Event>)
    requires Inv(s)
    ensures Inv(Run(ClearFirst, s, es))
    decreases es
  {
    if es != [] {
      StepKeeps(s, es[0]);
      RunKeeps(Step(ClearFirst, s, es[0]), es[1..]);
    }
  }

  /** At most one operation is admitted at any time, so at most one runs; and `pending` shows exactly whether
  an operation was marked and has not been cleared, in which case the permit is held. */
  lemma OneAtATime(es: seq<Event>)
    ensures var s := Run(ClearFirst, IDLE, es);
            && (forall c, d | c in s.calls && d in s.calls && HasPermit(s.calls[c]) && HasPermit(s.calls[d]) :: c == d)
            && (s.pending <==> exists c :: c in s.calls && HasMark(s.calls[c]))
            && (forall c | c in s.calls && s.calls[c].Running? :: s.pending && s.permit == Some(c))
            && (s.pending ==> s.permit.Some?)
  {
    RunKeeps(IDLE, es);
    var s := Run(ClearFirst, IDLE, es);
    if s.pending {
      assert s.permit.value in s.calls && HasMark(s.calls[s.permit.value]);
    }
  }

  /** What ends an operation clears its own mark only: between the mark and this moment nobody else set it,
  and nobody can set it before the permit is free. */
  lemma ClearsItsOwnMark(es: seq<Event>, c: Caller)
    ensures var s := Run(ClearFirst, IDLE, es);
            var t := Step(ClearFirst, s, Clear(c));
            t != s ==> s.setBy == Some(c) && s.pending && !t.pending && t.permit == Some(c)
                       && (forall d | d != c :: Step(ClearFirst, t, Mark(d)) == t)
  {
    RunKeeps(IDLE, es);
  }

  /** Dropping a caller never touches the mark. Before the operation is handed over the call is over and its
  permit free; afterwards the operation keeps permit and mark until it has ended. */
  lemma DroppedCallers(es: seq<Event>, c: Caller)
    ensures var s := Run(ClearFirst, IDLE, es);
            var t := Step(ClearFirst, s, Drop(c));
            && t.pending == s.pending && t.setBy == s.setBy
            && (c in s.calls && (s.calls[c].Waiting? || s.calls[c].Assigned?) ==>
                 t.calls[c].Done? && t.permit != Some(c))
            && (c in s.calls && HasMark(s.calls[c]) ==> t == s && s.permit == Some(c))
  {
    RunKeeps(IDLE, es);
  }

  /** A call that is over stays over: it never marks anything again. */
  lemma {:induction false} OverIsOver(s: State, c: Caller, es: seq<Event>)
    requires Inv(s) && c in s.calls && s.calls[c].Done?
    ensures var t := Run(ClearFirst, s, es); c in t.calls && t.calls[c].Done? && t.setBy != Some(c)
    decreases es
  {
    if es != [] {
      StepKeeps(s, es[0]);
      OverIsOver(Step(ClearFirst, s, es[0]), c, es[1..]);
    }
  }

  lemma RunThree(s: State, a: Event, b: Event, c: Event)
    ensures Run(ClearFirst, s, [a, b, c]) == Step(ClearFirst, Step(ClearFirst, Step(ClearFirst, s, a), b), c)
  {
    hide Step;
    assert [a, b, c][1..] == [b, c] && [b, c][1..] == [c] && [c][1..] == [];
    assert Run(ClearFirst, Step(ClearFirst, s, a), [b, c]) == Run(ClearFirst,
                                                                  Step(ClearFirst, Step(ClearFirst, s, a), b), [c]);
  }

  /** With the permit free, a new caller gets through to the blocking pool, which shows as pending work. */
  lemma FreePermitAdmits(s: State, c: Caller)
    requires s.permit.None? && c !in s.calls
    ensures var t := Run(ClearFirst, Run(ClearFirst, s, [Arrive(c), Assign(c), Admit(c)]),
                         [Mark(c), Spawn(c), Start(c)]);
            t == State(Some(c), true, s.calls[c := Running], Some(c))
  {
    RunThree(s, Arrive(c), Assign(c), Admit(c));
    var admitted := State(Some(c), s.pending, s.calls[c := Admitted], s.setBy);
    assert s.calls[c := Waiting][c := Assigned][c := Admitted] == s.calls[c := Admitted];
    assert Run(ClearFirst, s, [Arrive(c), Assign(c), Admit(c)]) == admitted;
    RunThree(admitted, Mark(c), Spawn(c), Start(c));
    assert admitted.calls[c := Marked][c := Queued][c := Running] == s.calls[c := Running];
  }

  /** An operation that has run, or that the pool discards before it starts, gives mark and permit back. */
  lemma OperationsGiveBack(s: State, c: Caller)
    requires c in s.calls && (s.calls[c].Running? || s.calls[c].Queued?) && s.permit == Some(c)
    ensures Run(ClearFirst, s, [if s.calls[c].Running? then End(c) else Discard(c), Clear(c), Release(c)])
              == State(None, false, s.calls[c := Done], None)
    ensures s.calls[c].Running? ==> Step(ClearFirst, s, Discard(c)) == s
    ensures s.calls[c].Queued? ==> Step(ClearFirst, s, End(c)) == s
  {
    RunThree(s, if s.calls[c].Running? then End(c) else Discard(c), Clear(c), Release(c));
    assert s.calls[c := Ended][c := Cleared][c := Done] == s.calls[c := Done];
  }

  /** A race of two callers that frees the permit before it clears the mark, state by state. */
  function Race(k: nat): State {
    match k
    case 0 => State(Some(0), true, map[0 := Ended, 1 := Waiting], Some(0))
    case 1 => State(None, true, map[0 := Cleared, 1 := Waiting], Some(0))
    case 2 => State(Some(1), true, map[0 := Cleared, 1 := Assigned], Some(0))
    case 3 => State(Some(1), true, map[0 := Cleared, 1 := Admitted], Some(0))
    case 4 => State(Some(1), true, map[0 := Cleared, 1 := Marked], Some(1))
    case 5 => State(Some(1), true, map[0 := Cleared, 1 := Queued], Some(1))
    case 6 => State(Some(1), true, map[0 := Cleared, 1 := Running], Some(1))
    case _ => State(Some(1), false, map[0 := Done, 1 := Running], None)
  }

  const RACE_EVENTS := [Release(0), Assign(1), Admit(1), Mark(1), Spawn(1), Start(1), Clear(0)]

  lemma RaceStep(k: nat)
    requires k < 7
    ensures Step(ReleaseFirst, Race(k), RACE_EVENTS[k]) == Race(k + 1)
  {
    assert Step(ReleaseFirst, Race(k), RACE_EVENTS[k]).calls == Race(k + 1).calls;
  }

  lemma {:induction false} RaceRuns(k: nat)
    requires k <= 7
    ensures Run(ReleaseFirst, Race(k), RACE_EVENTS[k..]) == Race(7)
    decreases 7 - k
  {
    hide Step, Race;
    if k < 7 {
      RaceStep(k);
      assert RACE_EVENTS[k..][1..] == RACE_EVENTS[k + 1..];
      RaceRuns(k + 1);
    }
  }

  /** The order matters: were the permit freed first, a finisher could clear its successor's mark, and a
  running operation would no longer be pending. */
  lemma ReleasingFirstLosesAMark()
    ensures Inv(Race(0))
    ensures var s := Run(ReleaseFirst, Race(0), RACE_EVENTS);
            1 in s.calls && s.calls[1].Running? && !s.pending
  {
    RaceRuns(0);
    assert RACE_EVENTS[0..] == RACE_EVENTS;
  }

  /** The shared object with its two words of state. */
  class BlockingWork {
    var permit: Option<Caller>
    var pending: bool
    var calls: map<Caller, Phase>
    ghost var setBy: Option<Caller>

    ghost function View(): State
      reads this
    {
      State(permit, pending, calls, setBy)
    }

    constructor ()
      ensures View() == IDLE
    {
      permit, pending, calls, setBy := None, false, map[], None;
    }

    method TryLock(c: Caller) returns (locked: bool)
      requires c in calls && calls[c].Waiting?
      modifies this
      ensures locked == old(permit).None?
      ensures View() == Step(ClearFirst, old(View()), Assign(c))
    {
      locked := permit.None?;
      if locked {
        permit := Some(c);
        calls := calls[c := Assigned];
      }
    }

    /** The part of `run` behind the lock. It has no await, so a caller cannot be dropped inside. */
    method Submit(c: Caller)
      requires c in calls && calls[c].Assigned?
      modifies this
      ensures View() == Step(ClearFirst, Step(ClearFirst, Step(ClearFirst, old(View()), Admit(c)), Mark(c)), Spawn(c))
    {
      pending := true;
      setBy := Some(c);
      calls := calls[c := Queued];
    }

    /** The end of the closure, by return or panic: `PendingWork::drop`, then the permit. */
    method Finish(c: Caller)
      requires Inv(View()) && c in calls && calls[c].Ended?
      modifies this
      ensures View() == Step(ClearFirst, Step(ClearFirst, old(View()), Clear(c)), Release(c))
      ensures Inv(View()) && !pending && permit.None?
    {
      pending := false;
      setBy := None;
      permit := None;
      calls := calls[c := Done];
    }

    /** A caller that is dropped while it waits, or after it was given the permit unnoticed. */
    method DropWaiting(c: Caller)
      requires c in calls && (calls[c].Waiting? || calls[c].Assigned?)
      modifies this`permit, this`calls
      ensures View() == Step(ClearFirst, old(View()), Drop(c))
    {
      if calls[c].Assigned? {
        permit := None;
      }
      calls := calls[c := Done];
    }
  }
}
