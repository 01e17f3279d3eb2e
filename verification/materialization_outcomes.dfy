/** How accepted work ends: the outcome of a target is the outcome of the attempt that served its request. */
module MaterializationOutcomes {
  import opened Wrappers
  import opened Materialization

  /** The request of the target `c` rides on attempt `n` of job `j`. */
  predicate RidesOn(t: Title, c: CampaignId, j: JobId, n: nat) {
    ForCampaign(c) in t.requests && t.requests[ForCampaign(c)].job == Some(j)
        && t.requests[ForCampaign(c)].attempt == Some(n)
  }

  function TargetOutcome(ok: bool): TargetStatus { if ok then TargetSucceeded else TargetFailed }

  /** The end of an attempt, with the scan that follows it. */
  lemma EndDecidesTargets(t: Title, j: JobId, n: nat, ok: bool, supported: Version, pick: Option<Intent>)
    requires Inv(t) && Owned(t, j, n) && OldestIntent(End(t, j, n, ok), pick)
    ensures var u := Step(t, FinishAttempt(j, n, ok, supported, pick));
            && j in u.jobs && u.jobs[j].status == (if ok then Succeeded else Failed)
            && u.targets.Keys == t.targets.Keys
            && (forall c | c in t.targets ::
                  u.targets[c] == if RidesOn(t, c, j, n) then t.targets[c].(status := TargetOutcome(ok))
                                  else t.targets[c])
            && (forall k | k in t.jobs && k != j :: k in u.jobs && u.jobs[k] == t.jobs[k])
            && (forall q | q in t.requests && t.requests[q].job == Some(j) && t.requests[q].attempt == Some(n) ::
                  q in u.requests && u.requests[q].status.Fulfilled?)
  {
    hide Inv, End, Next, OldestIntent;
    var ended := End(t, j, n, ok);
    EndServes(t, j, n, ok);
    EndKeeps(t, j, n, ok);
    NextKeeps(ended, supported, None, pick);
    NextSpares(ended, supported, pick);
    StepIsEndThenNext(t, j, n, ok, supported, pick);
    hide Step, Owned;
  }

  lemma StepIsEndThenNext(t: Title, j: JobId, n: nat, ok: bool, supported: Version, pick: Option<Intent>)
    requires Owned(t, j, n) && OldestIntent(End(t, j, n, ok), pick)
    ensures Step(t, FinishAttempt(j, n, ok, supported, pick))
              == OrUnchanged(t, Next(End(t, j, n, ok), supported, None, pick))
  {
    hide End, Next, OldestIntent;
  }

  /** Without naming the updates: what the end does to the job, its requests and their targets. */
  lemma EndServes(t: Title, j: JobId, n: nat, ok: bool)
    requires Inv(t) && Owned(t, j, n)
    ensures var u := End(t, j, n, ok);
            && u.jobs == t.jobs[j := t.jobs[j].(status := if ok then Succeeded else Failed)]
            && u.requests.Keys == t.requests.Keys && u.targets.Keys == t.targets.Keys
            && (forall q | q in t.requests ::
                  if t.requests[q].job == Some(j) && t.requests[q].attempt == Some(n)
                  then u.requests[q] == t.requests[q].(status := Fulfilled, served := t.jobs[j].started)
                  else u.requests[q] == t.requests[q])
            && (forall c | c in t.targets ::
                  u.targets[c] == if RidesOn(t, c, j, n) then t.targets[c].(status := TargetOutcome(ok))
                                  else t.targets[c])
            && u.desired == t.desired && u.radar == t.radar && u.clock == t.clock
            && (u.pendingWork <==> t.pendingWork && t.jobs[j].radarOnly)
  {
    var u := End(t, j, n, ok);
    forall q | q in t.requests && t.requests[q].job == Some(j) && t.requests[q].attempt == Some(n)
      ensures t.requests[q].status.Assigned?
    {
      assert RequestOk(t.jobs, t.clock, t.requests[q]);
    }
  }

  /** The scan after it adds a job and touches only requests that still wait. */
  lemma NextSpares(t: Title, supported: Version, pick: Option<Intent>)
    requires Next(t, supported, None, pick).Success?
    ensures var u := Next(t, supported, None, pick).value;
            && u.targets == t.targets && u.requests.Keys == t.requests.Keys
            && (forall j | j in t.jobs :: j in u.jobs && u.jobs[j] == t.jobs[j])
            && (forall q | q in t.requests && !t.requests[q].status.Pending? :: u.requests[q] == t.requests[q])
  {
  }

  // ---------------------------------------------------------------- other steps

  /** Only the end of its attempt ends a target as succeeded or failed. */
  predicate Ends(t: Title, e: Event, c: CampaignId, status: TargetStatus) {
    && e.FinishAttempt? && Owned(t, e.job, e.attempt) && RidesOn(t, c, e.job, e.attempt)
    && status == TargetOutcome(e.ok)
  }

  predicate HasOutcome(t: Title, c: CampaignId, status: TargetStatus) {
    c in t.targets && t.targets[c].status == status
  }

  lemma ExpandEndsNothing(t: Title, c: CampaignId, active: Option<JobId>, d: CampaignId, status: TargetStatus)
    requires status.TargetSucceeded? || status.TargetFailed?
    requires active.Some? ==> active.value in t.jobs
    requires HasOutcome(OrUnchangedPair(t, Expand(t, c, active)), d, status)
    ensures HasOutcome(t, d, status)
  {
    hide IsValidTarget;
  }

  function OrUnchangedPair(t: Title, r: Result<(Title, bool), Error>): Title {
    if r.Failure? then t else r.value.0
  }

  lemma OutcomeComesFromAnEnd(t: Title, e: Event, c: CampaignId, status: TargetStatus)
    requires Inv(t) && (status.TargetSucceeded? || status.TargetFailed?)
    requires HasOutcome(Step(t, e), c, status) && !HasOutcome(t, c, status)
    ensures Ends(t, e, c, status)
  {
    match e
    case FinishAttempt(j, n, ok, supported, pick) =>
      if Owned(t, j, n) && OldestIntent(End(t, j, n, ok), pick) {
        EndDecidesTargets(t, j, n, ok, supported, pick);
      }
      hide Inv, End, Next, OldestIntent;
    case ExpandTarget(d, active) =>
      if ActiveRow(t, active) { ExpandEndsNothing(t, d, active, c, status); }
      hide Inv, Expand;
    case AskApi(_, _, _) =>
      hide Inv;
    case ScanIntents(supported, active, pick) =>
      hide Inv, OldestIntent;
    case _ =>
      hide Inv;
  }

  /** A target is succeeded or failed only if its request rode on an attempt that ended so: the run holds the end of
  that attempt, by its owner, with that outcome. */
  lemma {:induction false} OutcomesAreEarned(desired: Desired, clock: int, es: seq<Event>, c: CampaignId,
      status: TargetStatus)
    requires status.TargetSucceeded? || status.TargetFailed?
    requires HasOutcome(Run(Fresh(desired, clock), es), c, status)
    ensures exists i :: 0 <= i < |es| && Ends(Run(Fresh(desired, clock), es[..i]), es[i], c, status)
    decreases |es|
  {
    hide Step, Inv, Ends;
    var start := Fresh(desired, clock);
    if es != [] {
      var (front, e) := (es[..|es| - 1], es[|es| - 1]);
      var t := Run(start, front);
      assert es == front + [e];
      RunAppends(start, front, e);
      FreshIsOk(desired, clock);
      RunKeeps(start, front);
      if HasOutcome(t, c, status) {
        OutcomesAreEarned(desired, clock, front, c, status);
        var i :| 0 <= i < |front| && Ends(Run(start, front[..i]), front[i], c, status);
        assert front[..i] == es[..i] && front[i] == es[i];
      } else {
        OutcomeComesFromAnEnd(t, e, c, status);
        assert es[..|front|] == front && es[|front|] == e;
      }
    }
  }

  // ---------------------------------------------------------------- what each transaction does

  /** Manual campaigns may hold targets of any version, all others only of their own; other triggers are unknown. */
  lemma ValidTargets(target: Target)
    ensures IsValidTarget(target) <==>
              || target.trigger == "manual"
              || (target.version == target.campaign
                  && target.trigger in {"algorithm_update", "artifact_schema_update", "validation_contract_update",
                                        "initial_backfill"})
  {
  }

  /** A target is accepted once, for a title that is there, and from a moment that is not in the future. */
  lemma AcceptedTargets(t: Title, c: CampaignId, target: Target)
    ensures var u := Step(t, Accept(c, target));
            if c !in t.targets && t.desired.Some? && target.accepted <= t.clock
            then u == t.(targets := u.targets) && u.targets == t.targets[c := u.targets[c]]
                 && u.targets[c] == target.(status := TargetPending)
            else u == t
  {
  }

  /** The pending target of a deleted title is skipped without a request. */
  lemma DeletedTitlesSkip(t: Title, c: CampaignId)
    requires Inv(t) && t.desired.None? && c in t.targets && t.targets[c].status.TargetPending?
               && IsValidTarget(t.targets[c])
    ensures Step(t, ExpandTarget(c, None)) == t.(targets := t.targets[c := t.targets[c].(status := Skipped)])
  {
    hide IsValidTarget;
  }

  /** A worker takes exactly a queued job of its own version. The attempt is the next one of the job, it starts now,
  and every request that waits for this job and was accepted by now rides on it; a radar preparation serves none. */
  lemma ClaimTakes(t: Title, j: JobId, supported: Version)
    ensures var u := Step(t, ClaimJob(j, supported));
            if j in t.jobs && t.jobs[j].status.Queued? && t.jobs[j].version == supported && t.desired.Some?
            then
              && u.jobs == t.jobs[j := u.jobs[j]] && u.jobs[j].status.Running? && u.jobs[j].started == Some(t.clock)
              && u.jobs[j].attempts == t.jobs[j].attempts + 1 && u.jobs[j].version == supported
              && u.jobs[j].revision == t.jobs[j].revision && u.jobs[j].radarOnly == t.jobs[j].radarOnly
              && u == t.(jobs := u.jobs, requests := u.requests) && u.requests.Keys == t.requests.Keys
              && forall q | q in t.requests ::
                   var r := t.requests[q];
                   u.requests[q] == if r.status.Pending? && r.job == Some(j) && r.accepted <= t.clock
                       && !t.jobs[j].radarOnly
                                    then r.(status := Assigned, attempt := Some(t.jobs[j].attempts + 1)) else r
            else u == t
  {
  }

  /** An attempt that is put back: its job waits again, with its old version or with what the title wants by now, and
  its requests wait on the job. Only its owner can do that. */
  lemma PutBack(t: Title, j: JobId, n: nat)
    requires Inv(t)
    ensures var (u, v) := (Step(t, RequeueAttempt(j, n)), Step(t, SupersedeAttempt(j, n)));
            if t.desired.Some? && j in t.jobs && t.jobs[j].status.Running? && t.jobs[j].attempts == n
            then
              && u.jobs == t.jobs[j := t.jobs[j].(status := Queued, started := None)]
              && v.jobs == t.jobs[j := u.jobs[j].(revision := t.desired.value.revision,
                                                  version := t.desired.value.version)]
              && u == t.(jobs := u.jobs, requests := u.requests) && v == u.(jobs := v.jobs)
              && u.requests.Keys == t.requests.Keys
              && forall q | q in t.requests ::
                   var r := t.requests[q];
                   u.requests[q] == if r.job == Some(j) && r.attempt == Some(n)
                                    then r.(status := Pending, attempt := None) else r
            else u == t && v == t
  {
    hide Inv;
  }

  /** A radar operation is planned once and waits. */
  lemma PlannedRadar(t: Title, o: RadarId, apply: bool)
    ensures var u := Step(t, PlanRadar(o, apply));
            if o !in t.radar && t.desired.Some? then u == t.(radar := t.radar[o := Radar(apply, t.clock, true)])
            else u == t
  {
  }

  /** A release moves the version of the title and of its queued jobs, and nothing else but the mark of open work. */
  lemma ReleaseMoves(t: Title, version: Version, eligible: bool)
    ensures var u := Step(t, Promote(version, eligible));
            if t.desired.None? then u == t
            else
              && u == t.(desired := u.desired, pendingWork := u.pendingWork, jobs := u.jobs)
              && u.desired == Some(Desired(t.desired.value.revision, version))
              && (u.pendingWork <==> t.pendingWork || eligible) && u.jobs.Keys == t.jobs.Keys
              && forall j | j in t.jobs ::
                   u.jobs[j] == if t.jobs[j].status.Queued?
                                then t.jobs[j].(revision := t.desired.value.revision, version := version) else t.jobs[j]
  {
  }

  /** A request through the API: an edit raises the revision. Without an active job it gets a new one; on a queued
  ordinary job it rides, and brings it up to date; beside any other job it waits, and the work is marked. */
  lemma AskedRequests(t: Title, n: int, edit: bool, active: Option<JobId>)
    requires Inv(t) && ActiveRow(t, active) && t.desired.Some? && Api(n) !in t.requests && Other(n) !in t.jobs
    ensures var u := Step(t, AskApi(n, edit, active));
            var desired := Desired(t.desired.value.revision + if edit then 1 else 0, t.desired.value.version);
            && u == t.(desired := Some(desired), pendingWork := u.pendingWork, jobs := u.jobs, requests := u.requests)
            && Api(n) in u.requests && u.requests == t.requests[Api(n) := u.requests[Api(n)]]
            && var r := u.requests[Api(n)];
               && r == Request(desired.revision, desired.version, t.clock, Pending, r.job, None, None)
               && (match active
                   case None =>
                     && r.job == Some(Other(n)) && u.jobs == t.jobs[Other(n) := NewJob(desired, false)]
                     && (u.pendingWork <==> t.pendingWork || edit)
                   case Some(j) =>
                     if t.jobs[j].status.Queued? && !t.jobs[j].radarOnly
                     then r.job == active && (u.pendingWork <==> t.pendingWork || edit)
                          && u.jobs == t.jobs[j := t.jobs[j].(revision := desired.revision, version := desired.version)]
                     else u.pendingWork && u.jobs == t.jobs
                          && r.job == (if edit && !t.jobs[j].radarOnly then active else None))
  {
    hide Inv;
  }

  /** A new job waits for its first attempt, with what the title wants. */
  lemma NewJobsWait(desired: Desired, radarOnly: bool)
    ensures var job := NewJob(desired, radarOnly);
            job.status.Queued? && job.started.None? && job.attempts == 0 && job.radarOnly == radarOnly
            && Desired(job.revision, job.version) == desired
  {
  }

  /** The deletion ends all open work of the title and leaves what has ended. */
  lemma DeletionEndsOpenWork(t: Title)
    ensures var u := Step(t, DeleteTitle);
            && u.desired.None? && !u.pendingWork && u.jobs == map[] && u.requests == map[] && u.radar == map[]
            && u.clock == t.clock && u.targets.Keys == t.targets.Keys
            && forall c | c in t.targets ::
                 u.targets[c] == if t.targets[c].status in {TargetPending, Expanded}
                                 then t.targets[c].(status := Skipped) else t.targets[c]
  {
  }

  /** What a scan of the desired version makes of a radar operation: a preparation, or an ordinary job if the
  operation is to be applied. Without the right version, or beside an active job, it makes nothing. */
  lemma ScannedRadar(t: Title, o: RadarId, supported: Version, active: Option<JobId>)
    requires Inv(t) && ActiveRow(t, active) && OldestIntent(t, Some(RadarIntent(o)))
    ensures var u := Step(t, ScanIntents(supported, active, Some(RadarIntent(o))));
            if t.desired.Some? && t.desired.value.version == supported && active.None?
            then u == t.(jobs := t.jobs[ForRadar(o) := NewJob(t.desired.value, !t.radar[o].apply)],
                         radar := t.radar[o := t.radar[o].(waiting := false)])
            else u == t
  {
    if active.None? {
      NextIdIsNew(t, active, RadarIntent(o));
    }
    hide Inv, OldestIntent;
  }

  lemma ScannedRequests(t: Title, q: RequestId, supported: Version, active: Option<JobId>)
    requires Inv(t) && ActiveRow(t, active) && OldestIntent(t, Some(RequestIntent(q)))
    ensures var u := Step(t, ScanIntents(supported, active, Some(RequestIntent(q))));
            if t.desired.Some? && t.desired.value.version == supported && active.None?
            then
              && u == t.(jobs := t.jobs[FollowUp(q) := NewJob(t.desired.value, false)], requests := u.requests,
                         pendingWork := true)
              && u.requests.Keys == t.requests.Keys
              && forall p | p in t.requests ::
                   u.requests[p] == if t.requests[p].status.Pending?
                                    then t.requests[p].(job := Some(FollowUp(q)), attempt := None) else t.requests[p]
            else u == t
  {
    if active.None? {
      NextIdIsNew(t, active, RequestIntent(q));
    }
    hide Inv, OldestIntent;
  }
}
