/** The timing of one OCR attempt: heartbeats that extend the lease, the watchdog of the child, and the
stop and finalization that follow.

Time passes only as far as the next thing that must happen. A parent may freeze for longer than that and go on
where it was, or die; both are events of their own, and so is a signal that interrupts the read of the watchdog. */
module LeaseTiming {
  import opened Wrappers

  /** `heartbeat`, `stop`, `finalization` and `lease` in one unit; the watchdog of the child waits for two
  heartbeats. */
  datatype Config = Config(heartbeat: nat, stop: nat, finalization: nat, lease: nat)

  function Watchdog(c: Config): nat { 2 * c.heartbeat }

  predicate Fits(c: Config) { 3 * c.heartbeat + c.stop + c.finalization < c.lease }

  /** The longest representable duration. */
  const MAX_DURATION: nat := 0xffff_ffff_ffff_ffff * 1_000_000_000 + 999_999_999

  function CheckedMul(a: nat, b: nat): Option<nat> { if a * b <= MAX_DURATION then Some(a * b) else None }

  function CheckedAdd(a: nat, b: nat): Option<nat> { if a + b <= MAX_DURATION then Some(a + b) else None }

  /** The timing checks of `OcrConsumerConfig::new`: the watchdog, or nothing for an invalid configuration. */
  function New(c: Config, download: nat): (r: Option<nat>)
    requires c.lease <= MAX_DURATION
    ensures r.Some? <==> Fits(c) && download + c.heartbeat <= MAX_DURATION
    ensures r.Some? ==> r.value == Watchdog(c)
  {
    var triple := CheckedMul(c.heartbeat, 3);
    var withStop := if triple.Some? then CheckedAdd(triple.value, c.stop) else None;
    var margin := if withStop.Some? then CheckedAdd(withStop.value, c.finalization) else None;
    var watchdog := CheckedMul(c.heartbeat, 2);
    if watchdog.None? || CheckedAdd(download, c.heartbeat).None? || margin.None? || margin.value >= c.lease then None
    else watchdog
  }

  // ---------------------------------------------------------------- the timed steps

  /** What the parent is doing. `Beating` carries when the lease was extended in the database. */
  datatype Parent =
    | Waiting(tick: int)
    | Beating(start: int, extended: Option<int>)
    | Stopping(since: int)
    | Finalizing(since: int)
    | Gone

  /** `watch` is when the watchdog began its current read, `lease` the expiry in the database. Bookkeeping:
  `proof` is the start of the last heartbeat whose refresh reached the child, `late` says that this refresh came
  more than an interval after it, `reread` that a signal has restarted the read since; `stalled` and `signalled`
  say that the parent ever froze and that a read was ever interrupted. */
  datatype State = State(
    now: int, alive: bool, watch: int, lease: int, parent: Parent, frozen: bool,
    proof: Option<int>, late: bool, reread: bool, stalled: bool, signalled: bool)

  datatype Event =
    | Pass(to: int)
    | Tick
    | Extend
    | Answer
    | BeatTimesOut
    | LeaseIsLost
    | Interrupt
    | ChildDies
    | WatchdogFires
    | Signal
    | Completes
    | ChildIsStopped
    | StopFails
    | EndFinalization
    | Stall
    | Resume
    | Crash

  /** The latest moment up to which nothing has to happen. A frozen parent has to do nothing. */
  predicate MayPass(c: Config, s: State, to: int) {
    && s.now <= to
    && (s.alive ==> to <= s.watch + Watchdog(c))
    && (s.frozen || match s.parent
                    case Waiting(tick) => to <= tick
                    case Beating(start, _) => to <= start + c.heartbeat
                    case Stopping(since) => to <= since + c.stop
                    case Finalizing(since) => to <= since + c.finalization
                    case Gone => true)
  }

  predicate Supervising(p: Parent) { p.Waiting? || p.Beating? }

  /** What only a running parent does. */
  predicate IsParental(e: Event) {
    e.Tick? || e.Answer? || e.BeatTimesOut? || e.LeaseIsLost? || e.Interrupt? || e.Completes? || e.ChildIsStopped?
        || e.StopFails? || e.EndFinalization?
  }

  function Act(c: Config, s: State, e: Event): State
    requires IsParental(e)
  {
    match e
    case Tick => if s.parent.Waiting? && s.parent.tick <= s.now then s.(parent := Beating(s.now, None)) else s
    case Answer =>
      if s.parent.Beating? && s.parent.extended.Some?
      then s.(watch := s.now, proof := Some(s.parent.start), late := s.parent.start + c.heartbeat < s.now,
              reread := false,
              parent := Waiting(s.parent.start + c.heartbeat))
      else s
    case BeatTimesOut =>
      if s.parent.Beating? && s.parent.start + c.heartbeat <= s.now then s.(parent := Stopping(s.now)) else s
    case LeaseIsLost => if s.parent.Beating? then s.(parent := Stopping(s.now)) else s
    case Interrupt => if Supervising(s.parent) then s.(parent := Stopping(s.now)) else s
    case Completes => if Supervising(s.parent) && !s.alive then s.(parent := Finalizing(s.now)) else s
    case ChildIsStopped => if s.parent.Stopping? then s.(alive := false, parent := Finalizing(s.now)) else s
    case StopFails => if s.parent.Stopping? then s.(parent := Gone) else s
    case EndFinalization => if s.parent.Finalizing? then s.(parent := Gone) else s
  }

  function Step(c: Config, s: State, e: Event): State {
    if IsParental(e) then if s.frozen then s else Act(c, s, e)
    else match e
      case Pass(to) => if MayPass(c, s, to) then s.(now := to) else s
      case Extend =>
        if s.parent.Beating? && s.parent.extended.None? && s.now < s.lease
        then s.(parent := Beating(s.parent.start, Some(s.now)), lease := s.now + c.lease) else s
      case ChildDies => s.(alive := false)
      case WatchdogFires => if s.alive && s.watch + Watchdog(c) <= s.now then s.(alive := false) else s
      case Signal => if s.alive then s.(watch := s.now, reread := true, signalled := true) else s
      case Stall => s.(frozen := true, stalled := true)
      case Resume => s.(frozen := false)
      case Crash => s.(parent := Gone, alive := false)
  }

  function Run(c: Config, s: State, es: seq<Event>): State
    decreases es
  {
    if es == [] then s else Run(c, Step(c, s, es[0]), es[1..])
  }

  /** Just after the first refresh, which follows no heartbeat; the first interval tick has been taken. */
  function Launched(c: Config, now: int, lease: int): State {
    State(now, true, now, lease, Waiting(now + c.heartbeat), false, None, false, false, false, false)
  }

  lemma NoEvents(c: Config, s: State)
    ensures Run(c, s, []) == s
  {
  }

  lemma {:induction false} RunAppends(c: Config, s: State, es: seq<Event>, fs: seq<Event>)
    ensures Run(c, s, es + fs) == Run(c, Run(c, s, es), fs)
    decreases es
  {
    if es == [] {
      assert es + fs == fs;
    } else {
      assert (es + fs)[1..] == es[1..] + fs;
      RunAppends(c, Step(c, s, es[0]), es[1..], fs);
    }
  }

  // ---------------------------------------------------------------- the invariant

  /** Relative to the start of the last confirmed heartbeat: when the refresh came, and, for a parent that never
  froze, where it is by now. */
  ghost predicate Inv(c: Config, s: State) {
    && (s.alive ==> s.now <= s.watch + Watchdog(c))
    && s.watch <= s.now && (s.frozen ==> s.stalled) && (s.late ==> s.stalled) && (s.reread ==> s.signalled)
    && (s.proof.Some? ==>
          && s.proof.value <= s.now && s.proof.value + c.lease <= s.lease
          && (!s.late && !s.reread ==> s.watch <= s.proof.value + c.heartbeat)
          && (s.alive && !s.signalled ==> s.watch <= s.proof.value + 2 * c.heartbeat))
    && match s.parent
       case Waiting(tick) => !s.stalled ==> s.now <= tick && By(s, tick, c.heartbeat)
       case Beating(start, extended) =>
         && start <= s.now && (!s.signalled ==> s.watch <= start)
         && (!s.stalled ==> s.now <= start + c.heartbeat && By(s, start, c.heartbeat))
         && (extended.Some? ==> start <= extended.value <= s.now && extended.value + c.lease <= s.lease)
       case Stopping(since) => !s.stalled ==> s.now <= since + c.stop && By(s, since, 2 * c.heartbeat)
       case Finalizing(since) =>
         !s.alive && (!s.stalled ==> s.now <= since + c.finalization && By(s, since, 2 * c.heartbeat + c.stop))
       case Gone => true
  }

  predicate By(s: State, at: int, distance: nat) { s.proof.Some? ==> at <= s.proof.value + distance }

  /** What a running parent does. */
  lemma ActKeeps(c: Config, s: State, e: Event)
    requires Inv(c, s) && IsParental(e) && !s.frozen
    ensures Inv(c, Act(c, s, e))
  {
  }

  lemma StepKeeps(c: Config, s: State, e: Event)
    requires Inv(c, s)
    ensures Inv(c, Step(c, s, e))
  {
    if IsParental(e) && !s.frozen {
      hide Inv, Act;
      ActKeeps(c, s, e);
    }
  }

  lemma {:induction false} RunKeeps(c: Config, s: State, es: seq<Event>)
    requires Inv(c, s)
    ensures Inv(c, Run(c, s, es))
    decreases es
  {
    if es != [] {
      StepKeeps(c, s, es[0]);
      RunKeeps(c, Step(c, s, es[0]), es[1..]);
    }
  }

  // ---------------------------------------------------------------- whole runs

  /** On every timed run of a valid configuration: once a heartbeat has been confirmed and passed on within its
  interval, a living child has more than the stop grace and the finalization budget left before its lease
  expires, unless a signal has restarted its read since. That holds also while the parent is frozen, is stopping
  the child, or has given up. */
  lemma ChildDiesInTime(c: Config, now: int, lease: int, es: seq<Event>)
    requires Fits(c)
    ensures var s := Run(c, Launched(c, now, lease), es);
            s.alive && s.proof.Some? && !s.late && !s.reread ==> s.now + c.stop + c.finalization < s.lease
  {
    RunKeeps(c, Launched(c, now, lease), es);
  }

  /** Only a parent that was frozen passes a heartbeat on late. */
  lemma OnlyAFrozenParentIsLate(c: Config, now: int, lease: int, es: seq<Event>)
    ensures var s := Run(c, Launched(c, now, lease), es); s.late ==> s.stalled
  {
    RunKeeps(c, Launched(c, now, lease), es);
  }

  /** A parent that never freezes starts every finalization with the child gone and ends it more than one
  heartbeat interval before the lease expires. */
  lemma FinalizationEndsInTime(c: Config, now: int, lease: int, es: seq<Event>)
    requires Fits(c)
    ensures var s := Run(c, Launched(c, now, lease), es);
            s.parent.Finalizing? ==>
              && !s.alive
              && (s.proof.Some? && !s.stalled ==> s.parent.since + c.finalization + c.heartbeat < s.lease
                                                  && s.now + c.heartbeat < s.lease)
  {
    RunKeeps(c, Launched(c, now, lease), es);
  }

  /** Whatever restarted it, the current read of the watchdog ends the child in time exactly if two intervals and
  the finalization budget are left of the lease at its begin. */
  lemma ReadIsSafeIff(c: Config, s: State)
    requires Inv(c, s) && s.alive
    ensures (forall es: seq<Event> ::
               var t := Run(c, s, es);
               t.alive && t.watch == s.watch ==> t.now + c.finalization < s.lease)
            <==> s.watch + Watchdog(c) + c.finalization < s.lease
  {
    if s.watch + Watchdog(c) + c.finalization < s.lease {
      forall es: seq<Event>
        ensures var t := Run(c, s, es); t.alive && t.watch == s.watch ==> t.now + c.finalization < s.lease
      {
        RunKeeps(c, s, es);
      }
    } else {
      Freeze(c, s, [], s.watch + Watchdog(c));
      var es := [] + [Stall, Pass(s.watch + Watchdog(c))];
      var t := Run(c, s, es);
      assert t.alive && t.watch == s.watch && !(t.now + c.finalization < s.lease);
    }
  }

  lemma Two(c: Config, s: State, a: Event, b: Event)
    ensures Run(c, s, [a, b]) == Step(c, Step(c, s, a), b)
  {
    assert [a, b][1..] == [b] && [b][1..] == [];
    assert Run(c, Step(c, s, a), [b]) == Step(c, Step(c, s, a), b);
  }

  lemma Then(c: Config, start: State, es: seq<Event>, a: Event, b: Event)
    ensures Run(c, start, es + [a, b]) == Step(c, Step(c, Run(c, start, es), a), b)
  {
    RunAppends(c, start, es, [a, b]);
    Two(c, Run(c, start, es), a, b);
  }

  /** A parent that freezes until the watchdog fires, at most. */
  lemma Freeze(c: Config, start: State, es: seq<Event>, to: int)
    requires var s := Run(c, start, es); s.now <= to && (s.alive ==> to <= s.watch + Watchdog(c))
    ensures Run(c, start, es + [Stall, Pass(to)]) == Run(c, start, es).(frozen := true, stalled := true, now := to)
  {
    hide Run;
    Then(c, start, es, Stall, Pass(to));
  }

  // ---------------------------------------------------------------- what the guards let through

  /** The watchdog ends a living child exactly at the end of its read, an expired lease is not extended, and a
  heartbeat times out exactly at the end of its interval. */
  lemma GuardsAreExact(c: Config, s: State)
    ensures Step(c, s, WatchdogFires).alive <==> s.alive && s.now < s.watch + Watchdog(c)
    ensures s.parent.Beating? && s.parent.extended.None? ==>
              Step(c, s, Extend).lease == if s.now < s.lease then s.now + c.lease else s.lease
    ensures s.parent.Beating? && !s.frozen ==>
              (Step(c, s, BeatTimesOut).parent.Stopping? <==> s.parent.start + c.heartbeat <= s.now)
  {
  }

  /** Time goes on: for a frozen parent and for one that is gone up to the end of the watchdog's read, for any other
  up to what it has to do next. */
  lemma TimeGoesOn(c: Config, s: State, to: int)
    requires s.now <= to && (s.alive ==> to <= s.watch + Watchdog(c))
    ensures s.frozen || s.parent.Gone? ==> Step(c, s, Pass(to)) == s.(now := to)
    ensures s.parent.Waiting? && to <= s.parent.tick ==> Step(c, s, Pass(to)) == s.(now := to)
    ensures s.parent.Beating? && to <= s.parent.start + c.heartbeat ==> Step(c, s, Pass(to)) == s.(now := to)
    ensures s.parent.Stopping? && to <= s.parent.since + c.stop ==> Step(c, s, Pass(to)) == s.(now := to)
    ensures s.parent.Finalizing? && to <= s.parent.since + c.finalization ==> Step(c, s, Pass(to)) == s.(now := to)
  {
  }

  /** An ordinary attempt: one heartbeat, the output of the child, and the finalization to its end, never late. */
  lemma OrdinaryAttempt(c: Config, now: int) returns (es: seq<Event>)
    requires Fits(c)
    ensures var s := Run(c, Launched(c, now, now + c.lease), es);
            && s.parent.Finalizing? && !s.alive && !s.stalled && !s.late && !s.signalled && s.now == now + c.heartbeat
            && s.proof == Some(s.now) && s.lease == s.now + c.lease
            && Step(c, s, EndFinalization).parent.Gone?
  {
    hide Run;
    var start := Launched(c, now, now + c.lease);
    NoEvents(c, start);
    Then(c, start, [], Pass(now + c.heartbeat), Tick);
    es := [] + [Pass(now + c.heartbeat), Tick];
    Then(c, start, es, Extend, Answer);
    es := es + [Extend, Answer];
    var beaten := start.(now := now + c.heartbeat, watch := now + c.heartbeat, lease := now + c.heartbeat + c.lease,
                         proof := Some(now + c.heartbeat), parent := Waiting(now + 2 * c.heartbeat));
    assert Run(c, start, es) == beaten;
    Then(c, start, es, ChildDies, Completes);
    es := es + [ChildDies, Completes];
  }

  /** An attempt that is interrupted: the child is stopped, and then it is finalized or given up. The death of the
  parent ends the child with it. */
  lemma InterruptedAttempt(c: Config, s: State)
    requires Supervising(s.parent) && !s.frozen
    ensures var stopping := Step(c, s, Interrupt);
            && stopping == s.(parent := Stopping(s.now))
            && Step(c, stopping, ChildIsStopped) == stopping.(alive := false, parent := Finalizing(s.now))
            && Step(c, stopping, StopFails) == stopping.(parent := Gone)
            && Step(c, s, Crash) == s.(parent := Gone, alive := false)
  {
  }

  // ---------------------------------------------------------------- where the bounds fail

  /** The first refresh follows no heartbeat, and the accepted bounds do not cover it: with this configuration
  the last heartbeat before the launch may be two intervals old, and the child then lives until the lease
  expires. */
  lemma FirstRefreshMayComeTooLate()
    ensures var c := Config(3, 1, 1, 12);
            var (heartbeat, launch) := (0, 6);
            && New(c, 0) == Some(Watchdog(c)) && launch == heartbeat + 2 * c.heartbeat
            && var s := Run(c, Launched(c, launch, heartbeat + c.lease), [Stall, Pass(12)]);
               s.alive && s.now == heartbeat + c.lease
  {
    Two(Config(3, 1, 1, 12), Launched(Config(3, 1, 1, 12), 6, 12), Stall, Pass(12));
  }

  /** One confirmed heartbeat, passed on at once. */
  const BEAT: seq<Event> := [Tick, Extend, Answer]

  lemma BeatRuns(c: Config, s: State)
    requires s.parent.Waiting? && s.parent.tick <= s.now < s.lease && !s.frozen
    ensures Run(c, s, BEAT) == s.(watch := s.now, lease := s.now + c.lease, proof := Some(s.now), late := false,
                                  reread := false,
                                  parent := Waiting(s.now + c.heartbeat))
  {
    assert BEAT == [Tick, Extend] + [Answer];
    RunAppends(c, s, [Tick, Extend], [Answer]);
    Two(c, s, Tick, Extend);
    var t := Run(c, s, [Tick, Extend]);
    assert [Answer][1..] == [];
    assert Run(c, t, [Answer]) == Step(c, t, Answer);
  }

  /** A signal that interrupts the read of the watchdog gives the child another two intervals: with this
  configuration, a parent frozen after a heartbeat and one signal, the child lives until the lease expires. */
  lemma ASignalDelaysTheWatchdog() returns (c: Config, es: seq<Event>)
    ensures c.lease <= MAX_DURATION && New(c, 0) == Some(Watchdog(c))
    ensures var s := Run(c, Launched(c, 0, c.lease), es);
            s.alive && s.proof.Some? && !s.late && s.now == s.lease
  {
    hide Run;
    c := Config(3, 1, 1, 12);
    var s := Launched(c, 0, 12);
    es := [Pass(3), Resume];
    Two(c, s, Pass(3), Resume);
    assert Run(c, s, es) == s.(now := 3);
    RunAppends(c, s, es, BEAT);
    BeatRuns(c, s.(now := 3));
    es := es + BEAT;
    var t := s.(now := 3, watch := 3, lease := 15, proof := Some(3), parent := Waiting(6));
    assert Run(c, s, es) == t;
    Freeze(c, s, es, 9);
    es := es + [Stall, Pass(9)];
    Then(c, s, es, Signal, Resume);
    es := es + [Signal, Resume];
    t := t.(stalled := true, now := 9, watch := 9, reread := true, signalled := true);
    assert Run(c, s, es) == t;
    Freeze(c, s, es, 15);
    es := es + [Stall, Pass(15)];
  }

  /** The outer timeout looks at the answer before it looks at the clock, so a parent that was frozen during a
  heartbeat may still pass it on, up to two intervals after its start. Without signals the bounds then cover every
  confirmed heartbeat exactly if they leave a fourth interval. */
  lemma StallsAreSafeIff(c: Config)
    requires Fits(c)
    ensures (forall now: int, lease: int, es: seq<Event> ::
               var s := Run(c, Launched(c, now, lease), es);
               s.alive && s.proof.Some? && !s.signalled ==> s.now + c.finalization < s.lease)
            <==> 4 * c.heartbeat + c.finalization < c.lease
  {
    if 4 * c.heartbeat + c.finalization < c.lease {
      forall now: int, lease: int, es: seq<Event>
        ensures var s := Run(c, Launched(c, now, lease), es);
                s.alive && s.proof.Some? && !s.signalled ==> s.now + c.finalization < s.lease
      {
        RunKeeps(c, Launched(c, now, lease), es);
      }
    } else {
      var es := FrozenTwice(c);
      assert var s := Run(c, Launched(c, 0, c.lease), es);
             s.alive && s.proof.Some? && !s.signalled && !(s.now + c.finalization < s.lease);
    }
  }

  /** Two heartbeats in a row: the second one starts as soon as the first is passed on. */
  lemma BeatAfterBeat(c: Config) returns (es: seq<Event>)
    requires Fits(c) && c.heartbeat > 0
    ensures var start, h := Launched(c, 0, c.lease), c.heartbeat;
            Run(c, start, es) == start.(now := 2 * h, watch := 2 * h, lease := 2 * h + c.lease, proof := Some(h),
                                        parent := Beating(2 * h, Some(2 * h)))
  {
    hide Run;
    var start, h := Launched(c, 0, c.lease), c.heartbeat;
    NoEvents(c, start);
    Then(c, start, [], Pass(h), Tick);
    es := [] + [Pass(h), Tick];
    assert Run(c, start, es) == start.(now := h, parent := Beating(h, None));
    Then(c, start, es, Extend, Pass(2 * h));
    es := es + [Extend, Pass(2 * h)];
    Then(c, start, es, Answer, Tick);
    es := es + [Answer, Tick];
    var s := start.(now := 2 * h, watch := 2 * h, lease := h + c.lease, proof := Some(h),
                    parent := Beating(2 * h, None));
    assert Run(c, start, es) == s;
    Then(c, start, es, Extend, Resume);
    es := es + [Extend, Resume];
  }

  /** The worst run: a heartbeat starts right after a refresh, the parent freezes until the watchdog is about to
  fire, passes the old answer on, and freezes again. */
  lemma FrozenTwice(c: Config) returns (es: seq<Event>)
    requires Fits(c) && c.heartbeat > 0
    ensures var s := Run(c, Launched(c, 0, c.lease), es);
            && s.alive && !s.signalled && s.proof == Some(2 * c.heartbeat)
            && s.now == 6 * c.heartbeat && s.lease == 2 * c.heartbeat + c.lease
  {
    hide Run;
    var start, h := Launched(c, 0, c.lease), c.heartbeat;
    es := BeatAfterBeat(c);
    var s := Run(c, start, es);
    Freeze(c, start, es, 4 * h);
    es := es + [Stall, Pass(4 * h)];
    Then(c, start, es, Resume, Answer);
    es := es + [Resume, Answer];
    s := s.(now := 4 * h, watch := 4 * h, stalled := true, proof := Some(2 * h), late := true,
            parent := Waiting(3 * h));
    assert Run(c, start, es) == s;
    Freeze(c, start, es, 6 * h);
    es := es + [Stall, Pass(6 * h)];
  }

  // ---------------------------------------------------------------- the supervising loop

  datatype Notice = Unchanged | Cleared | Requested

  datatype Reply = Pending | Arrived | Failed

  /** One poll of a `select!`: `statement` is the heartbeat's statement if the database executes it now, for a claim
  that owns its row or not; then what the poll finds. `refreshed` says whether the liveness socket takes a byte. */
  datatype Moment = Moment(now: int, statement: Option<bool>, notice: Notice, done: bool, reply: Reply, refreshed: bool)

  datatype Outcome = Completed | TimedOut | Shutdown | OwnerLost | Error(message: string)

  const HEARTBEAT_TIMEOUT := "ocr_heartbeat_timeout"
  const CONTROL := "control"
  const CHILD_PROCESS := "child_process"

  /** The parent after the loop: with an output it finalizes, with any other end its caller stops the child. */
  predicate Leaves(outcome: Option<Outcome>, p: Parent) {
    match outcome
    case None => Supervising(p)
    case Some(Completed) => p.Finalizing?
    case Some(_) => p.Stopping?
  }

  /** What happens up to the next poll of the parent, which freezes if it is late. */
  function Elapse(c: Config, s: State, to: int): seq<Event> {
    if MayPass(c, s, to) then [Pass(to), Resume]
    else if s.alive && s.watch + Watchdog(c) < to
         then [Stall, Pass(s.watch + Watchdog(c))] + [WatchdogFires, Pass(to)] + [Resume, Resume]
    else [Stall, Pass(to)] + [Resume, Resume]
  }

  lemma ElapseReaches(c: Config, s: State, to: int)
    requires (s.alive ==> s.now <= s.watch + Watchdog(c)) && !s.frozen && s.now <= to
    ensures var t := Run(c, s, Elapse(c, s, to)); !t.frozen && t.now == to && t.parent == s.parent && t.lease == s.lease
  {
    hide Run, Act;
    if MayPass(c, s, to) {
      Two(c, s, Pass(to), Resume);
    } else if s.alive && s.watch + Watchdog(c) < to {
      WatchdogEndsTheChild(c, s, to);
    } else {
      NoEvents(c, s);
      Freeze(c, s, [], to);
      assert [] + [Stall, Pass(to)] == [Stall, Pass(to)];
      Then(c, s, [Stall, Pass(to)], Resume, Resume);
    }
  }

  lemma WatchdogEndsTheChild(c: Config, s: State, to: int)
    requires s.alive && s.now <= s.watch + Watchdog(c) < to
    ensures Run(c, s, [Stall, Pass(s.watch + Watchdog(c))] + [WatchdogFires, Pass(to)] + [Resume, Resume])
            == s.(alive := false, frozen := false, stalled := true, now := to)
  {
    hide Run, Act;
    var fires := s.watch + Watchdog(c);
    NoEvents(c, s);
    Freeze(c, s, [], fires);
    assert [] + [Stall, Pass(fires)] == [Stall, Pass(fires)];
    var t := s.(frozen := true, stalled := true, now := fires);
    Then(c, s, [Stall, Pass(fires)], WatchdogFires, Pass(to));
    assert Step(c, Step(c, t, WatchdogFires), Pass(to)) == t.(alive := false, now := to);
    Then(c, s, [Stall, Pass(fires)] + [WatchdogFires, Pass(to)], Resume, Resume);
  }

  /** One more event of a run. */
  lemma Play(c: Config, start: State, es: seq<Event>, e: Event) returns (s: State)
    requires Inv(c, Run(c, start, es))
    ensures s == Run(c, start, es + [e]) == Step(c, Run(c, start, es), e) && Inv(c, s)
  {
    RunAppends(c, start, es, [e]);
    assert [e][1..] == [];
    assert Run(c, Run(c, start, es), [e]) == Step(c, Run(c, start, es), e);
    StepKeeps(c, Run(c, start, es), e);
    s := Run(c, start, es + [e]);
  }

  /** The next poll of the parent. */
  lemma PlayUntil(c: Config, start: State, es: seq<Event>, to: int) returns (s: State)
    requires Inv(c, Run(c, start, es)) && !Run(c, start, es).frozen && Run(c, start, es).now <= to
    ensures s == Run(c, start, es + Elapse(c, Run(c, start, es), to)) && Inv(c, s)
    ensures !s.frozen && s.now == to && s.parent == Run(c, start, es).parent && s.lease == Run(c, start, es).lease
  {
    var was := Run(c, start, es);
    ElapseReaches(c, was, to);
    RunKeeps(c, was, Elapse(c, was, to));
    RunAppends(c, start, es, Elapse(c, was, to));
    s := Run(c, was, Elapse(c, was, to));
  }

  predicate Quiet(m: Moment) { m.notice.Unchanged? }

  /** The child's output or the end of its time, with no news about a stop. */
  predicate Over(m: Moment, deadline: int) { Quiet(m) && (m.done || deadline <= m.now) }

  /** What an end of the loop says about the poll that ended it. */
  predicate EndsWith(outcome: Option<Outcome>, m: Moment, deadline: int) {
    && (outcome == Some(Shutdown) <==> m.notice.Requested?)
    && (outcome == Some(Completed) ==> Quiet(m) && m.done && m.now < deadline)
    && (outcome == Some(TimedOut) ==> Quiet(m) && deadline <= m.now)
    && (outcome.Some? && Over(m, deadline) ==> outcome.value in {Completed, TimedOut})
  }

  /** What one look at a heartbeat that began at `begun` leads to. */
  function Answered(c: Config, m: Moment, begun: int, answer: Option<bool>): Option<Outcome> {
    match m.reply
    case Failed => Some(Error(CONTROL))
    case Arrived =>
      if answer == Some(false) then Some(OwnerLost)
      else if answer == Some(true) then if m.refreshed then None else Some(Error(CHILD_PROCESS))
      else Expired(c, m, begun)
    case Pending => Expired(c, m, begun)
  }

  function Expired(c: Config, m: Moment, begun: int): Option<Outcome> {
    if begun + c.heartbeat <= m.now then Some(Error(HEARTBEAT_TIMEOUT)) else None
  }

  /** The local state of `supervise_attempt`, beside the lease that its heartbeats extend. */
  class Supervision {
    const c: Config
    const deadline: int
    ghost const start: State
    var tick: int
    var beat: Option<int>
    var answer: Option<bool>
    var expiry: int
    ghost var es: seq<Event>
    ghost var s: State

    /** The events so far are a timed run of the model. */
    ghost predicate Played()
      reads this
    {
      s == Run(c, start, es) && Inv(c, s) && !s.frozen
    }

    ghost predicate Valid()
      reads this
    {
      && Played() && s.lease == expiry
      && match beat
         case None => s.parent == Waiting(tick)
         case Some(begun) => s.parent.Beating? && s.parent.start == begun
                               && (s.parent.extended.Some? <==> answer == Some(true))
    }

    constructor (c: Config, launch: int, lease: int, deadline: int)
      ensures Valid() && this.c == c && this.deadline == deadline && start == Launched(c, launch, lease) == s
      ensures beat.None?
    {
      this.c, this.deadline, start := c, deadline, Launched(c, launch, lease);
      tick, beat, answer, expiry := launch + c.heartbeat, None, None, lease;
      es, s := [], Launched(c, launch, lease);
    }

    ghost method Record(e: Event)
      requires Played() && !e.Stall?
      modifies this`es, this`s
      ensures Played() && s == Step(c, old(s), e)
    {
      hide Run, Inv;
      s := Play(c, start, es, e);
      es := es + [e];
    }

    /** The caller is to stop the child. */
    ghost method GiveUp(e: Event)
      requires Valid()
      requires || e.Interrupt?
               || (beat.Some? && (e.LeaseIsLost? || (e.BeatTimesOut? && beat.value + c.heartbeat <= s.now)))
      modifies this`es, this`s
      ensures Played() && s.parent.Stopping? && s.now == old(s.now)
    {
      hide Run, Inv, MayPass;
      Record(e);
    }

    /** The child has ended by itself. */
    ghost method Complete()
      requires Valid()
      modifies this`es, this`s
      ensures Played() && s.parent.Finalizing? && s.now == old(s.now)
    {
      Record(ChildDies);
      Record(Completes);
    }

    /** Time goes on to the next poll, and the database may execute the heartbeat's statement. */
    method Reach(m: Moment)
      requires Valid() && s.now <= m.now
      modifies this`answer, this`expiry, this`es, this`s
      ensures Valid() && s.now == m.now
      ensures var executed := m.statement.Some? && beat.Some? && old(answer).None?;
              && answer == (if executed then Some(m.statement.value && m.now < old(expiry)) else old(answer))
              && expiry == if executed && answer == Some(true) then m.now + c.lease else old(expiry)
    {
      hide Run, Inv, Elapse, MayPass;
      ghost var was := s;
      s := PlayUntil(c, start, es, m.now);
      es := es + Elapse(c, was, m.now);
      if m.statement.Some? && beat.Some? && answer.None? {
        answer := Some(m.statement.value && m.now < expiry);
        if answer.value {
          expiry := m.now + c.lease;
          Record(Extend);
        }
      }
    }

    method BeginBeat(now: int)
      requires Valid() && beat.None? && tick <= now == s.now
      modifies this`beat, this`answer, this`es, this`s
      ensures Valid() && beat == Some(now) && answer.None? && s.now == now
    {
      hide Run, Inv, MayPass;
      beat, answer := Some(now), None;
      Record(Tick);
    }

    /** A confirmed heartbeat is passed on to the child. */
    method PassOn()
      requires Valid() && beat.Some? && answer == Some(true)
      modifies this`tick, this`beat, this`answer, this`es, this`s
      ensures Valid() && beat.None? && tick == old(beat).value + c.heartbeat
      ensures s.now == s.watch == old(s.now) && s.proof == old(beat)
    {
      hide Run, Inv, MayPass;
      Record(Answer);
      tick, beat, answer := beat.value + c.heartbeat, None, None;
    }

    /** One poll of the outer `select!`, or of the inner one while a heartbeat is under way. A poll that says that
    the attempt is over and does not end the loop has begun a heartbeat. */
    method Select(m: Moment) returns (outcome: Option<Outcome>)
      requires Valid() && s.now == m.now
      modifies this
      ensures Played() && s.now == m.now && Leaves(outcome, s.parent) && (outcome.None? ==> Valid())
      ensures EndsWith(outcome, m, deadline)
      ensures outcome.None? && Over(m, deadline) ==> old(beat).None? && beat.Some?
      ensures !Quiet(m) && outcome.None? ==> beat == old(beat) && answer == old(answer) && tick == old(tick)
      ensures Quiet(m) && old(beat).None? && old(tick) <= m.now ==> outcome.None? && beat == Some(m.now) && answer.None?
      ensures Quiet(m) && !Over(m, deadline) && old(beat).Some? ==>
                outcome == Answered(c, m, old(beat).value, old(answer))
      ensures Quiet(m) && !Over(m, deadline) && old(beat).None? && m.now < old(tick) ==>
                outcome.None? && beat.None? && tick == old(tick)
    {
      hide Run, Inv, MayPass, Step;
      if !m.notice.Unchanged? {
        if m.notice.Requested? {
          GiveUp(Interrupt);
          return Some(Shutdown);
        }
      } else if beat.None? && tick <= m.now {
        BeginBeat(m.now);
      } else if deadline <= m.now {
        GiveUp(Interrupt);
        return Some(TimedOut);
      } else if m.done {
        Complete();
        return Some(Completed);
      } else if beat.Some? {
        outcome := SelectAnswer(m);
        return;
      }
      return None;
    }

    /** The heartbeat inside its timeout, which looks at the answer before it looks at the clock. */
    method SelectAnswer(m: Moment) returns (outcome: Option<Outcome>)
      requires Valid() && s.now == m.now && beat.Some?
      modifies this
      ensures Played() && s.now == m.now && Leaves(outcome, s.parent) && (outcome.None? ==> Valid())
      ensures outcome == Answered(c, m, old(beat).value, old(answer))
      ensures outcome == Some(OwnerLost) <==> m.reply.Arrived? && old(answer) == Some(false)
      ensures outcome == Some(Error(CONTROL)) <==> m.reply.Failed?
      ensures outcome == Some(Error(CHILD_PROCESS)) <==> m.reply.Arrived? && old(answer) == Some(true) && !m.refreshed
      ensures outcome == Some(Error(HEARTBEAT_TIMEOUT)) <==>
                && (m.reply.Pending? || (m.reply.Arrived? && old(answer).None?))
                && old(beat).value + c.heartbeat <= m.now
      ensures outcome.None? && m.reply.Arrived? && old(answer) == Some(true) ==>
                beat.None? && tick == old(beat).value + c.heartbeat && s.watch == m.now && s.proof == old(beat)
      ensures outcome.None? && !(m.reply.Arrived? && old(answer) == Some(true)) ==>
                beat == old(beat) && answer == old(answer) && tick == old(tick) && s == old(s)
    {
      hide Run, Inv, MayPass, Step;
      assert |CONTROL| == 7 && |CHILD_PROCESS| == 13 && |HEARTBEAT_TIMEOUT| == 21;
      if m.reply.Failed? {
        GiveUp(Interrupt);
        return Some(Error(CONTROL));
      } else if m.reply.Arrived? && answer == Some(false) {
        GiveUp(LeaseIsLost);
        return Some(OwnerLost);
      } else if m.reply.Arrived? && answer == Some(true) {
        if !m.refreshed {
          GiveUp(Interrupt);
          return Some(Error(CHILD_PROCESS));
        }
        PassOn();
      } else if beat.value + c.heartbeat <= m.now {
        if answer.Some? {
          assert answer == Some(if answer.value then true else false);
        }
        GiveUp(BeatTimesOut);
        return Some(Error(HEARTBEAT_TIMEOUT));
      }
      return None;
    }
  }

  predicate Ordered(launch: int, moments: seq<Moment>) {
    && (moments != [] ==> launch <= moments[0].now)
    && forall i, j | 0 <= i < j < |moments| :: moments[i].now <= moments[j].now
  }

  /** The whole loop. Its run is a timed run of the model, so everything proved about those holds for it. A stop is
  answered by the very poll that sees it; an output counts only before the deadline; an output or the deadline ends
  it with the second poll in a row that sees it, since the first may begin a heartbeat. */
  method SuperviseAttempt(c: Config, launch: int, lease: int, deadline: int, requested: bool, moments: seq<Moment>)
    returns (outcome: Option<Outcome>, n: nat, ghost es: seq<Event>)
    requires Ordered(launch, moments)
    ensures n <= |moments| && (outcome.None? ==> n == |moments|)
    ensures var s := Run(c, Launched(c, launch, lease), es);
            Inv(c, s) && Leaves(outcome, s.parent) && s.now == if n == 0 then launch else moments[n - 1].now
    ensures if n == 0 then outcome == if requested then Some(Shutdown) else None
            else !requested && EndsWith(outcome, moments[n - 1], deadline)
    ensures forall i | 0 <= i < n - 1 :: !moments[i].notice.Requested?
    ensures forall i | 0 <= i && i + 1 < n && Over(moments[i], deadline) && Over(moments[i + 1], deadline) ::
              n == i + 2 && outcome in {Some(Completed), Some(TimedOut)}
  {
    hide Run, Inv;
    var loop := new Supervision(c, launch, lease, deadline);
    n := 0;
    if requested {
      loop.Record(Interrupt);
      return Some(Shutdown), 0, loop.es;
    }
    while n < |moments|
      invariant fresh(loop) && n <= |moments| && loop.Valid()
      invariant loop.s.now == if n == 0 then launch else moments[n - 1].now
      invariant forall i | 0 <= i < n :: !moments[i].notice.Requested?
      invariant n > 0 ==> EndsWith(None, moments[n - 1], deadline)
      invariant n > 0 && Over(moments[n - 1], deadline) ==> loop.beat.Some?
      invariant forall i | 0 <= i && i + 1 < n :: !(Over(moments[i], deadline) && Over(moments[i + 1], deadline))
    {
      loop.Reach(moments[n]);
      outcome := loop.Select(moments[n]);
      n := n + 1;
      if outcome.Some? {
        return outcome, n, loop.es;
      }
    }
    return None, n, loop.es;
  }

  // ---------------------------------------------------------------- the watchdog of the child

  datatype Received = Bytes(count: nat) | Interrupted | Broken

  /** One read of the liveness socket and when it returns; a timeout is one of the errors. */
  datatype Read = Read(at: int, received: Received)

  predicate GoesOn(r: Read) { r.received.Interrupted? || (r.received.Bytes? && r.received.count > 0) }

  /** The monitor ends the child at the first read that brings neither a byte nor an interruption. */
  method MonitorParentLiveness(rs: seq<Read>) returns (exit: Option<nat>)
    ensures exit.Some? ==>
              exit.value < |rs| && !GoesOn(rs[exit.value]) && forall i | 0 <= i < exit.value :: GoesOn(rs[i])
    ensures exit.None? ==> forall i | 0 <= i < |rs| :: GoesOn(rs[i])
  {
    for i := 0 to |rs|
      invariant forall j | 0 <= j < i :: GoesOn(rs[j])
    {
      match rs[i].received {
        case Bytes(count) =>
          if count == 0 {
            return Some(i);
          }
        case Interrupted =>
        case Broken => return Some(i);
      }
    }
    return None;
  }

  function Begin(rs: seq<Read>, start: int, i: nat): int
    requires i <= |rs|
  {
    if i == 0 then start else rs[i - 1].at
  }

  /** No read outlasts the timeout of the socket. */
  predicate Timed(rs: seq<Read>, start: int, timeout: nat) {
    forall i | 0 <= i < |rs| :: Begin(rs, start, i) <= rs[i].at <= Begin(rs, start, i) + timeout
  }

  /** When the last byte before read `i` came, or the monitor started. */
  function LastRefresh(rs: seq<Read>, start: int, i: nat): int
    requires i <= |rs|
  {
    if i == 0 then start else if rs[i - 1].received.Bytes? then rs[i - 1].at else LastRefresh(rs, start, i - 1)
  }

  /** The reads interrupted since. */
  function Interruptions(rs: seq<Read>, i: nat): nat
    requires i <= |rs|
  {
    if i == 0 || rs[i - 1].received.Bytes? then 0
    else Interruptions(rs, i - 1) + if rs[i - 1].received.Interrupted? then 1 else 0
  }

  lemma OneMore(timeout: nat, n: nat)
    ensures timeout * (n + 1) == timeout * n + timeout
  {
  }

  /** Without refreshes the child ends one timeout after the last one, and at most one more for every interruption. */
  lemma {:induction false} MonitorEndsTheChild(rs: seq<Read>, start: int, timeout: nat, exit: nat)
    requires Timed(rs, start, timeout) && exit < |rs| && forall i | 0 <= i < exit :: GoesOn(rs[i])
    ensures LastRefresh(rs, start, exit) <= rs[exit].at
    ensures rs[exit].at <= LastRefresh(rs, start, exit) + timeout * (1 + Interruptions(rs, exit))
    decreases exit
  {
    if exit > 0 && !rs[exit - 1].received.Bytes? {
      MonitorEndsTheChild(rs, start, timeout, exit - 1);
      OneMore(timeout, 1 + Interruptions(rs, exit - 1));
    }
  }
}
