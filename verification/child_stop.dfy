/** Stopping one child: its leader, then whatever is left in its control group, inside one deadline.

The operating system is a parameter: when the leader exits by itself or after a signal, when the group is
empty, and which calls fail. Times are instants of the monotonic clock. */
module ChildStop {
  import opened Wrappers
  import E = Execution

  datatype Deadlines = Deadlines(soft: int, reap: int, overall: int)

  /** `child_stop_deadlines`, with the last instant the clock can represent. */
  function DeadlinesFor(started: int, grace: nat, latest: int): (d: Option<Deadlines>)
    ensures d.Some? <==> grace > 0 && started + grace <= latest
    ensures d.Some? ==>
              && started <= d.value.soft <= d.value.reap <= d.value.overall == started + grace
              && d.value.reap - d.value.soft == grace / 4 && d.value.overall - d.value.reap >= grace / 4
  {
    if grace == 0 || started + grace > latest then None
    else Some(Deadlines(started + grace / 2, started + grace / 2 + grace / 4, started + grace))
  }

  /** When the leader exits by itself, and how long it lives after each signal; and the calls that fail. */
  datatype Leader = Leader(exits: Option<int>, term: Option<nat>, kill: Option<nat>,
                           tryWaitFails: bool, waitFails: bool, termFails: bool, killFails: bool)

  datatype Reap = Reaped(at: int) | Unreaped(at: int, kind: string)

  function Earlier(a: Option<int>, b: Option<int>): Option<int> {
    if a.None? then b else if b.None? then a else if a.value < b.value then a else b
  }

  function After(t: int, delay: Option<nat>): Option<int> { if delay.None? then None else Some(t + delay.value) }

  predicate By(t: Option<int>, deadline: int) { t.Some? && t.value <= deadline }

  function Max(a: int, b: int): int { if a < b then b else a }

  /** `force_kill_and_reap_child`; `dying` is when earlier signals would end the leader. */
  function ForceKill(l: Leader, dying: Option<int>, now: int, deadline: int): Reap {
    var exit := Earlier(dying, if l.killFails then None else After(now, l.kill));
    if By(exit, Max(now, deadline))
    then (if l.waitFails then Unreaped(Max(now, exit.value), "wait") else Reaped(Max(now, exit.value)))
    else Unreaped(Max(now, deadline), if l.killFails then "signal" else "stop_timeout")
  }

  /** `stop_and_reap_child`: terminate, wait for the soft deadline, then kill. */
  function StopAndReap(l: Leader, now: int, d: Deadlines): Reap {
    if !l.tryWaitFails && By(l.exits, now) then Reaped(now)
    else if l.tryWaitFails || l.termFails then ForceKill(l, l.exits, now, d.reap)
    else
      var dying := Earlier(l.exits, After(now, l.term));
      if By(dying, Max(now, d.soft)) && !l.waitFails then Reaped(Max(now, dying.value))
      else if By(dying, Max(now, d.soft)) then ForceKill(l, dying, Max(now, dying.value), d.reap)
      else ForceKill(l, dying, Max(now, d.soft), d.reap)
  }

  /** Stopping the leader ends by its deadline, or at once if that has passed. */
  lemma StoppingIsBounded(l: Leader, now: int, d: Deadlines)
    requires d.soft <= d.reap
    ensures now <= StopAndReap(l, now, d).at <= Max(now, d.reap)
  {
  }

  /** A leader that dies within a quarter of the grace after the kill is reaped, whatever it does with the
  termination signal. */
  lemma KillableIsReaped(l: Leader, now: int, grace: nat, latest: int)
    requires grace > 0 && now + grace <= latest
    requires !l.killFails && !l.waitFails && l.kill.Some? && l.kill.value <= grace / 4
    ensures StopAndReap(l, now, DeadlinesFor(now, grace, latest).value).Reaped?
  {
  }

  /** A leader that has ended already is reaped at once, whatever a wait for it would have said. */
  lemma GoneLeaderIsReaped(l: Leader, now: int, d: Deadlines)
    requires !l.tryWaitFails && By(l.exits, now)
    ensures StopAndReap(l, now, d) == Reaped(now)
  {
  }

  /** A leader that follows the termination signal, or ends by itself, before the soft deadline is reaped when it
  ends; it is not killed. */
  lemma GracefulLeaderIsReaped(l: Leader, now: int, d: Deadlines, dying: int)
    requires !l.tryWaitFails && !l.termFails && !l.waitFails && now <= dying <= d.soft
    requires l.exits.Some? ==> dying <= l.exits.value
    requires l.term.Some? ==> dying <= now + l.term.value
    requires l.exits == Some(dying) || l.term == Some(dying - now)
    ensures StopAndReap(l, now, d) == Reaped(dying)
  {
  }

  /** What is reaped has ended: by itself, after the termination signal, or after a kill. */
  lemma ReapedLeaderHasEnded(l: Leader, now: int, d: Deadlines)
    requires StopAndReap(l, now, d).Reaped?
    ensures var at := StopAndReap(l, now, d).at;
            || By(l.exits, at)
            || (l.term.Some? && !l.termFails && !l.tryWaitFails && now + l.term.value <= at)
            || (l.kill.Some? && !l.killFails && now + l.kill.value <= at)
  {
  }

  /** Without a wait that works only a leader that has ended already is reaped. */
  lemma FailingWaitReapsNothing(l: Leader, now: int, d: Deadlines)
    requires l.waitFails && (l.tryWaitFails || !By(l.exits, now))
    ensures StopAndReap(l, now, d).Unreaped?
  {
  }

  /** Why a leader is not reaped: the wait failed, the kill could not be sent, or the time was up. */
  lemma UnreapedReason(l: Leader, now: int, d: Deadlines)
    requires now <= d.soft <= d.reap && StopAndReap(l, now, d).Unreaped?
    ensures var r := StopAndReap(l, now, d);
            || (r.kind == "wait" && l.waitFails)
            || (r.kind == "signal" && l.killFails && r.at == d.reap && !By(l.exits, d.reap))
            || (r.kind == "stop_timeout" && !l.killFails && r.at == d.reap && !By(l.exits, d.reap))
  {
  }

  // ---------------------------------------------------------------- the control group

  /** From when on the group is empty, and from when on it cannot be inspected or killed. */
  datatype Group = Group(emptyFrom: Option<int>, failsFrom: Option<int>)

  datatype Inspection = Empty | Unexpected | Failed

  function Inspect(g: Group, t: int): Inspection {
    if By(g.failsFrom, t) then Failed else if By(g.emptyFrom, t) then Empty else Unexpected
  }

  datatype GroupStop = Stopped(found: bool, at: int) | NotStopped(at: int, kind: string)

  const POLL := 10

  /** `stop_remaining_process_group`: it succeeds only with the group seen empty, reports whether it had to
  kill, and is over by the deadline. */
  method StopGroup(g: Group, now: int, deadline: int) returns (r: GroupStop)
    ensures r.Stopped? ==> Inspect(g, r.at) == Empty && (r.found <==> Inspect(g, now) != Empty)
    ensures now <= r.at <= Max(now, deadline)
    ensures Inspect(g, now) == Empty ==> r == Stopped(false, now)
    ensures By(g.emptyFrom, deadline - POLL) && g.failsFrom.None? && now <= deadline ==> r.Stopped?
  {
    var first := Inspect(g, now);
    if first.Empty? {
      return Stopped(false, now);
    }
    if first.Failed? {
      return NotStopped(now, "cgroup");
    }
    var t := now;
    while true
      invariant now <= t && (t == now || t <= deadline)
      invariant By(g.emptyFrom, deadline - POLL) && g.failsFrom.None? && now <= deadline ==> t <= deadline
      decreases deadline - t
    {
      var seen := Inspect(g, t);
      if seen.Failed? {
        return NotStopped(t, "cgroup");
      }
      if seen.Empty? {
        return if t <= deadline then Stopped(true, t) else NotStopped(t, "stop_timeout");
      }
      if t + POLL > deadline {
        return NotStopped(Max(t, deadline), "stop_timeout");
      }
      t := t + POLL;
    }
  }

  // ---------------------------------------------------------------- the recovered child

  /** `RecoveredChild`. */
  class RecoveredChild {
    var verified: bool
    /** Bookkeeping: the leader was reaped, its group was seen empty, and the last kill by `drop`. */
    ghost var reaped: bool
    ghost var emptied: bool
    var killed: bool

    constructor ()
      ensures !verified && !reaped && !emptied && !killed
    {
      verified, reaped, emptied, killed := false, false, false, false;
    }

    /** `cleanup`: the group is stopped even when the leader cannot be reaped; success means that the leader
    was reaped and the group seen empty. `started` is when the sub-deadlines are computed; unless the deadline
    has passed by then, every answer comes by the deadline, and otherwise at once. */
    method Cleanup(l: Leader, g: Group, now: int, started: int, deadline: int, latest: int)
      returns (poll: E.ChildPoll, at: int)
      requires now <= started
      modifies this
      ensures !poll.Waiting?
      ensures poll.Stopped? ==> verified && reaped && emptied
      ensures poll.Unstopped? ==> verified == old(verified) && reaped == (old(reaped) || poll.reaped)
      ensures old(reaped) ==> reaped
      ensures now <= at <= Max(started, deadline)
    {
      var remaining: nat := if deadline <= now then 0 else deadline - now;
      if remaining == 0 {
        killed := true;
        return E.Unstopped(false, "stop_timeout"), now;
      }
      var deadlines := DeadlinesFor(started, remaining, latest);
      if deadlines.None? {
        return E.Unstopped(false, "stop_timeout_bound"), started;
      }
      var d := Deadlines(if deadlines.value.soft < deadline then deadlines.value.soft else deadline,
                         if deadlines.value.reap < deadline then deadlines.value.reap else deadline, deadline);
      var leader := StopAndReap(l, started, d);
      StoppingIsBounded(l, started, d);
      var group := StopGroup(g, leader.at, deadline);
      at := group.at;
      reaped := reaped || leader.Reaped?;
      emptied := emptied || group.Stopped?;
      if leader.Unreaped? {
        return E.Unstopped(false, leader.kind), at;
      }
      if group.NotStopped? {
        return E.Unstopped(true, group.kind), at;
      }
      verified := true;
      poll := E.Stopped;
    }

    method Drop()
      modifies this`killed
      ensures killed == (old(killed) || !verified)
    {
      if !verified {
        killed := true;
      }
    }
  }
}
