/** The rolling budget for early rechecks of busy work, shared by all jobs, and the rechecks of one job. */
module BusyRetry {
  import opened Wrappers

  const SLOTS := 3
  const SECOND := 1000
  const START_WINDOW := 10 * SECOND

  function Delays(): seq<int> { [1 * SECOND, 2 * SECOND, 4 * SECOND] }

  /** The stored start is absent or at least a period old; a clock that went back counts as no time. */
  predicate IsFree(slot: Option<int>, period: nat, now: int) {
    slot.None? || (if now > slot.value then now - slot.value else 0) >= period
  }

  function FirstFree(slots: seq<Option<int>>, period: nat, now: int): (i: nat)
    ensures i <= |slots|
    ensures forall k | 0 <= k < i :: !IsFree(slots[k], period, now)
    ensures i < |slots| ==> IsFree(slots[i], period, now)
  {
    if slots == [] || IsFree(slots[0], period, now) then 0 else 1 + FirstFree(slots[1..], period, now)
  }

  /** The slots and the grants so far, oldest first. The program keeps only the slots. */
  datatype Budget = Budget(slots: seq<Option<int>>, grants: seq<int>)

  function Granted(b: Budget, period: nat, now: int): bool { FirstFree(b.slots, period, now) < |b.slots| }

  function Spend(b: Budget, period: nat, now: int): Budget {
    var i := FirstFree(b.slots, period, now);
    if i < |b.slots| then Budget(b.slots[i := Some(now)], b.grants + [now]) else b
  }

  const FRESH := Budget([None, None, None], [])

  /** The budget after calls at these times. */
  function After(period: nat, times: seq<int>): Budget
    decreases times
  {
    if times == [] then FRESH else Spend(After(period, times[..|times| - 1]), period, times[|times| - 1])
  }

  predicate Monotone(times: seq<int>) {
    forall i, j | 0 <= i <= j < |times| :: times[i] <= times[j]
  }

  /** How many of these starts lie less than a period before `now`. */
  function Recent(grants: seq<int>, period: nat, now: int): nat
    decreases grants
  {
    if grants == [] then 0
    else Recent(grants[..|grants| - 1], period, now) + if now - grants[|grants| - 1] < period then 1 else 0
  }

  function Busy(slot: Option<int>, period: nat, now: int): nat { if IsFree(slot, period, now) then 0 else 1 }

  /** How many slots are taken at `now`. */
  function Taken(b: Budget, period: nat, now: int): nat
    requires |b.slots| == SLOTS
  {
    Busy(b.slots[0], period, now) + Busy(b.slots[1], period, now) + Busy(b.slots[2], period, now)
  }

  /** At any later time the three slots say exactly how many of all grants are recent. */
  ghost predicate Inv(b: Budget, period: nat, last: int) {
    && |b.slots| == SLOTS
    && Monotone(b.grants)
    && (forall g | g in b.grants :: g <= last)
    && (forall k | 0 <= k < SLOTS && b.slots[k].Some? :: b.slots[k].value <= last)
    && (forall now | last <= now :: Taken(b, period, now) == Recent(b.grants, period, now))
  }

  /** A slot that is free now stays free, so filling it adds exactly one. */
  lemma FillOne(b: Budget, period: nat, now: int, later: int)
    requires |b.slots| == SLOTS && now <= later && Granted(b, period, now)
    requires forall k | 0 <= k < SLOTS && b.slots[k].Some? :: b.slots[k].value <= now
    ensures Taken(Spend(b, period, now), period, later) == Taken(b, period, later) + Busy(Some(now), period, later)
  {
    var i := FirstFree(b.slots, period, now);
    assert Busy(b.slots[i], period, later) == 0;
  }

  lemma RecentGrows(grants: seq<int>, period: nat, now: int, later: int)
    requires now <= later
    ensures Recent(grants + [now], period, later) == Recent(grants, period, later) + Busy(Some(now), period, later)
  {
    assert (grants + [now])[..|grants|] == grants;
  }

  /** All slots are taken exactly when none is free. */
  lemma AllTaken(b: Budget, period: nat, now: int)
    requires |b.slots| == SLOTS
    ensures Granted(b, period, now) <==> Taken(b, period, now) < SLOTS
  {
    var i := FirstFree(b.slots, period, now);
    if i < SLOTS { assert IsFree(b.slots[i], period, now); }
  }

  lemma SpendKeeps(b: Budget, period: nat, last: int, now: int)
    requires Inv(b, period, last) && last <= now
    ensures Inv(Spend(b, period, now), period, now)
    ensures Granted(b, period, now) <==> Recent(b.grants, period, now) < SLOTS
  {
    hide Taken, Recent, IsFree, FirstFree;
    var u := Spend(b, period, now);
    AllTaken(b, period, now);
    assert forall i | 0 <= i < |b.grants| :: b.grants[i] in b.grants;
    assert Monotone(u.grants);
    forall later | now <= later ensures Taken(u, period, later) == Recent(u.grants, period, later) {
      assert Taken(b, period, later) == Recent(b.grants, period, later);
      if Granted(b, period, now) {
        FillOne(b, period, now, later);
        RecentGrows(b.grants, period, now, later);
      }
    }
  }

  lemma {:induction false} AfterKeeps(period: nat, times: seq<int>, last: int)
    requires Monotone(times) && forall t | t in times :: t <= last
    ensures Inv(After(period, times), period, last)
    decreases times
  {
    if times == [] {
      assert Taken(FRESH, period, last) == 0;
    } else {
      var (front, now) := (times[..|times| - 1], times[|times| - 1]);
      AfterKeeps(period, front, now);
      SpendKeeps(After(period, front), period, now, now);
      assert now in times;
    }
  }

  /** For any calls at rising times, a call is granted exactly when fewer than three of all earlier grants
  lie less than a period ago: the three slots do the work of the whole log. */
  lemma SlotsRefineTheLog(period: nat, times: seq<int>, now: int)
    requires Monotone(times + [now])
    ensures Granted(After(period, times), period, now) <==> Recent(After(period, times).grants, period, now) < SLOTS
  {
    assert forall i | 0 <= i < |times| :: times[i] == (times + [now])[i] <= (times + [now])[|times|];
    assert forall i, j | 0 <= i <= j < |times| :: (times + [now])[i] <= (times + [now])[j];
    AfterKeeps(period, times, now);
    SpendKeeps(After(period, times), period, now, now);
  }

  /** Grants that are recent at `now` and rise count all together. */
  lemma {:induction false} LastThreeAreRecent(grants: seq<int>, period: nat, now: int)
    requires Monotone(grants) && |grants| >= SLOTS && now - grants[|grants| - SLOTS] < period
    ensures Recent(grants, period, now) >= SLOTS
  {
    var n := |grants|;
    assert grants[n - 3] <= grants[n - 2] <= grants[n - 1];
    assert grants[..n - 1][..n - 2] == grants[..n - 2] && grants[..n - 2][..n - 3] == grants[..n - 3];
    assert Recent(grants, period, now) == Recent(grants[..n - 1], period, now) + 1;
    assert Recent(grants[..n - 1], period, now) == Recent(grants[..n - 2], period, now) + 1;
    assert Recent(grants[..n - 2], period, now) == Recent(grants[..n - 3], period, now) + 1;
  }

  /** The fourth of any four grants in a row comes at least a period after the first. */
  predicate IsSpaced(grants: seq<int>, period: nat) {
    forall i | 0 <= i < |grants| - SLOTS :: grants[i] + period <= grants[i + SLOTS]
  }

  lemma SpendKeepsSpacing(b: Budget, period: nat, last: int, now: int)
    requires Inv(b, period, last) && last <= now && IsSpaced(b.grants, period)
    ensures IsSpaced(Spend(b, period, now).grants, period)
  {
    SpendKeeps(b, period, last, now);
    var n := |b.grants|;
    if n >= SLOTS && now < b.grants[n - SLOTS] + period {
      LastThreeAreRecent(b.grants, period, now);
    }
  }

  /** No window of one period ever holds four grants. */
  lemma {:induction false} WindowsHoldThree(period: nat, times: seq<int>)
    requires Monotone(times)
    ensures IsSpaced(After(period, times).grants, period)
    decreases times
  {
    if times != [] {
      var (front, now) := (times[..|times| - 1], times[|times| - 1]);
      WindowsHoldThree(period, front);
      AfterKeeps(period, front, now);
      SpendKeepsSpacing(After(period, front), period, now, now);
    }
  }

  /** `BusyRetryBudget`. */
  class BusyRetryBudget {
    const period: nat
    const starts: array<Option<int>>
    ghost var grants: seq<int>

    ghost function View(): Budget
      reads this, starts
    {
      Budget(starts[..], grants)
    }

    constructor (period: nat)
      ensures this.period == period && View() == FRESH && fresh(starts)
    {
      this.period := period;
      starts := new Option<int>[SLOTS](_ => None);
      grants := [];
    }

    method TryStart(now: int) returns (granted: bool)
      modifies this`grants, starts
      ensures granted == Granted(old(View()), period, now)
      ensures View() == Spend(old(View()), period, now)
    {
      for i := 0 to starts.Length
        invariant forall k | 0 <= k < i :: !IsFree(starts[k], period, now)
        invariant View() == old(View())
      {
        if IsFree(starts[i], period, now) {
          FirstFreeIs(starts[..], period, now, i);
          starts[i] := Some(now);
          grants := grants + [now];
          return true;
        }
      }
      return false;
    }

    method Available(now: int) returns (free: bool)
      ensures free == Granted(View(), period, now)
    {
      for i := 0 to starts.Length
        invariant forall k | 0 <= k < i :: !IsFree(starts[k], period, now)
      {
        if IsFree(starts[i], period, now) {
          FirstFreeIs(starts[..], period, now, i);
          return true;
        }
      }
      return false;
    }
  }

  lemma {:induction false} FirstFreeIs(slots: seq<Option<int>>, period: nat, now: int, i: nat)
    requires i < |slots| && IsFree(slots[i], period, now) && forall k | 0 <= k < i :: !IsFree(slots[k], period, now)
    ensures FirstFree(slots, period, now) == i
  {
  }

  // ---------------------------------------------------------------- the rechecks of one job

  /** One busy job: when its rechecks end, and how many were started. `at` is bookkeeping: when they were. */
  datatype Retry = Retry(deadline: int, attempts: nat, at: seq<int>)

  function NewRetry(busyAt: int, normalRecoveryAt: int): Retry {
    Retry(if busyAt + START_WINDOW < normalRecoveryAt then busyAt + START_WINDOW else normalRecoveryAt, 0, [])
  }

  predicate MayStart(r: Retry, now: int) { now < r.deadline && r.attempts < |Delays()| }

  /** The jobs and the budget they share. */
  datatype Shared = Shared(budget: Budget, jobs: seq<Retry>)

  function StartRetry(s: Shared, period: nat, job: nat, now: int): Shared
    requires job < |s.jobs|
  {
    var r := s.jobs[job];
    if MayStart(r, now) && Granted(s.budget, period, now)
    then Shared(Spend(s.budget, period, now), s.jobs[job := r.(attempts := r.attempts + 1, at := r.at + [now])])
    else s
  }

  /** One call for one job, if there is such a job. */
  function Call(s: Shared, period: nat, call: (nat, int)): Shared {
    if call.0 < |s.jobs| then StartRetry(s, period, call.0, call.1) else s
  }

  /** Calls for any of the jobs, in any order. */
  function StartAll(s: Shared, period: nat, calls: seq<(nat, int)>): Shared
    decreases calls
  {
    if calls == [] then s
    else StartAll(Call(s, period, calls[0]), period, calls[1..])
  }

  predicate RetryOk(r: Retry) {
    r.attempts == |r.at| <= |Delays()| && forall t | t in r.at :: t < r.deadline
  }

  /** All starts of all jobs. */
  function AllStarts(jobs: seq<Retry>): multiset<int>
    decreases jobs
  {
    if jobs == [] then multiset{} else AllStarts(jobs[..|jobs| - 1]) + multiset(jobs[|jobs| - 1].at)
  }

  lemma {:induction false} OneMoreStart(jobs: seq<Retry>, job: nat, r: Retry, now: int)
    requires job < |jobs| && r.at == jobs[job].at + [now]
    ensures AllStarts(jobs[job := r]) == AllStarts(jobs) + multiset{now}
    decreases jobs
  {
    var n := |jobs| - 1;
    if job < n {
      OneMoreStart(jobs[..n], job, r, now);
      assert jobs[job := r][..n] == jobs[..n][job := r];
    } else {
      assert jobs[job := r][..n] == jobs[..n];
    }
  }

  /** However the calls are spread over the jobs: each job starts at most three rechecks, all before its own
  deadline, and exactly the started ones were paid from the shared budget. */
  lemma {:induction false} RetriesAreBounded(s: Shared, period: nat, calls: seq<(nat, int)>)
    requires (forall r | r in s.jobs :: RetryOk(r)) && multiset(s.budget.grants) == AllStarts(s.jobs)
    ensures var t := StartAll(s, period, calls);
            && |t.jobs| == |s.jobs|
            && (forall r | r in t.jobs :: r.attempts == |r.at| <= 3 && forall x | x in r.at :: x < r.deadline)
            && multiset(t.budget.grants) == AllStarts(t.jobs)
    decreases calls
  {
    if calls == [] {
      assert forall r | r in s.jobs :: RetryOk(r);
    } else {
      var u := Call(s, period, calls[0]);
      if u != s {
        var (job, now) := calls[0];
        OneMoreStart(s.jobs, job, u.jobs[job], now);
        assert RetryOk(s.jobs[job]);
        assert forall r | r in u.jobs :: r in s.jobs || r == u.jobs[job];
      }
      RetriesAreBounded(u, period, calls[1..]);
    }
  }

  predicate Rising(calls: seq<(nat, int)>, from: int) {
    && (forall c | c in calls :: from <= c.1)
    && forall i, j | 0 <= i <= j < |calls| :: calls[i].1 <= calls[j].1
  }

  lemma {:induction false} SharedSpacing(s: Shared, period: nat, calls: seq<(nat, int)>, last: int)
    requires Rising(calls, last) && Inv(s.budget, period, last) && IsSpaced(s.budget.grants, period)
    ensures IsSpaced(StartAll(s, period, calls).budget.grants, period)
              && Monotone(StartAll(s, period, calls).budget.grants)
    decreases calls
  {
    if calls != [] {
      var now := calls[0].1;
      assert calls[0] in calls && forall c | c in calls[1..] :: c in calls && now <= c.1;
      LaterKeeps(s.budget, period, last, now);
      SpendKeeps(s.budget, period, last, now);
      SpendKeepsSpacing(s.budget, period, last, now);
      hide Inv, IsSpaced, Spend, Granted;
      SharedSpacing(Call(s, period, calls[0]), period, calls[1..], now);
    }
  }

  lemma LaterKeeps(b: Budget, period: nat, last: int, now: int)
    requires Inv(b, period, last) && last <= now
    ensures Inv(b, period, now)
  {
  }

  /** All jobs together, called at rising times, start at most three rechecks in any window of one period: the
  starts of all jobs, in order, are the grants of the budget, and these are spaced. */
  lemma JobsShareTheWindow(jobs: seq<Retry>, period: nat, calls: seq<(nat, int)>, from: int)
    requires Rising(calls, from) && forall r | r in jobs :: r.attempts == 0 && r.at == []
    ensures var t := StartAll(Shared(FRESH, jobs), period, calls);
            multiset(t.budget.grants) == AllStarts(t.jobs) && Monotone(t.budget.grants)
                && IsSpaced(t.budget.grants, period)
  {
    NoStarts(jobs);
    RetriesAreBounded(Shared(FRESH, jobs), period, calls);
    AfterKeeps(period, [], from);
    SharedSpacing(Shared(FRESH, jobs), period, calls, from);
  }

  lemma {:induction false} NoStarts(jobs: seq<Retry>)
    requires forall r | r in jobs :: r.at == []
    ensures AllStarts(jobs) == multiset{}
    decreases jobs
  {
    if jobs != [] {
      NoStarts(jobs[..|jobs| - 1]);
    }
  }

  /** `BusyRetry`. */
  class Recheck {
    const deadline: int
    var attempts: nat

    constructor (busyAt: int, normalRecoveryAt: int)
      ensures deadline == NewRetry(busyAt, normalRecoveryAt).deadline && attempts == 0
      ensures deadline <= busyAt + START_WINDOW && deadline <= normalRecoveryAt
    {
      deadline := if busyAt + START_WINDOW < normalRecoveryAt then busyAt + START_WINDOW else normalRecoveryAt;
      attempts := 0;
    }

    method NextAt(now: int) returns (next: Option<int>)
      ensures next.Some? <==> attempts < 3 && now + Delays()[attempts] < deadline
      ensures next.Some? ==> next.value == now + Delays()[attempts]
    {
      if attempts >= |Delays()| {
        return None;
      }
      var at := now + Delays()[attempts];
      next := if at < deadline then Some(at) else None;
    }

    /** A recheck that does not start spends nothing. */
    method TryStart(now: int, budget: BusyRetryBudget) returns (started: bool)
      modifies this`attempts, budget`grants, budget.starts
      ensures started == (now < deadline && old(attempts) < 3 && Granted(old(budget.View()), budget.period, now))
      ensures attempts == old(attempts) + if started then 1 else 0
      ensures budget.View() == if started then Spend(old(budget.View()), budget.period, now) else old(budget.View())
    {
      if now >= deadline || attempts >= |Delays()| {
        return false;
      }
      started := budget.TryStart(now);
      if started {
        attempts := attempts + 1;
      }
    }
  }
}
