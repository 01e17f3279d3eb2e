/** Accepted analysis work of one title: its campaign targets, the requests made for them, and the jobs
that serve these requests.

Every transaction here locks the title first, so the transactions on one title run one after the other
and a run is any sequence of them. */
module Materialization {
  import opened Wrappers

  type CampaignId = string
  type RadarId = string

  datatype Version = Version(algorithm: string, schema: int, contract: Option<string>)

  datatype Desired = Desired(revision: int, version: Version)

  datatype TargetStatus = TargetPending | Expanded | TargetSucceeded | TargetFailed | Skipped

  /** A campaign target joined with the trigger and version of its campaign. */
  datatype Target = Target(revision: int, version: Version, accepted: int, trigger: string, campaign: Version,
      status: TargetStatus)

  /** Stable ids are kept as what they are made from. `Api` requests and `Other` jobs come from the API. */
  datatype RequestId = ForCampaign(campaign: CampaignId) | Api(number: int)

  datatype JobId = ForTarget(campaign: CampaignId) | FollowUp(request: RequestId) | ForRadar(radar: RadarId)
      | Other(number: int)

  datatype JobStatus = Queued | Running | Succeeded | Failed

  /** `radarOnly` is the work kind `radar_prepare`. The running attempt is number `attempts`. */
  datatype Job = Job(radarOnly: bool, revision: int, version: Version, status: JobStatus, started: Option<int>,
      attempts: nat)

  datatype RequestStatus = Pending | Assigned | Fulfilled

  /** Attempts are named by their number in the assigned job. `served` is bookkeeping: when the attempt that
  fulfilled the request had started. */
  datatype Request = Request(
    revision: int, version: Version, accepted: int,
    status: RequestStatus, job: Option<JobId>, attempt: Option<nat>, served: Option<int>)

  /** `apply` operations run as ordinary analysis jobs, the others as `radar_prepare`. */
  datatype Radar = Radar(apply: bool, requested: int, waiting: bool)

  /** All rows of one title; `desired` is absent once its state row is gone. `clock` is the database time. */
  datatype Title = Title(
    desired: Option<Desired>, pendingWork: bool, jobs: map<JobId, Job>, requests: map<RequestId, Request>,
    targets: map<CampaignId, Target>, radar: map<RadarId, Radar>, clock: int)

  datatype Error = InvalidRecordValue | UniqueViolation | OwnerLost

  // ---------------------------------------------------------------- expansion

  predicate Active(job: Job) { job.status.Queued? || job.status.Running? }

  /** What the row query for the active job may return. */
  predicate ActiveRow(t: Title, active: Option<JobId>) {
    && (active.Some? ==> active.value in t.jobs)
    && forall j | j in t.jobs :: Active(t.jobs[j]) <==> active == Some(j)
  }

  datatype Decision = Create | RefreshQueued(queued: JobId) | JoinRunning(running: JobId, attempt: nat) | DeferForcedRun

  function RequiresUniformVersion(trigger: string): Result<bool, Error> {
    if trigger == "manual" then Success(false)
    else if trigger == "algorithm_update" || trigger == "artifact_schema_update"
            || trigger == "validation_contract_update" || trigger == "initial_backfill" then Success(true)
    else Failure(InvalidRecordValue)
  }

  /** The checks of `lock_pending_campaign_target`. */
  predicate IsValidTarget(target: Target) {
    var uniform := RequiresUniformVersion(target.trigger);
    uniform.Success? && (uniform.value ==> target.version == target.campaign)
  }

  /** `campaign_assignment_decision`. */
  function Decide(t: Title, active: Option<JobId>, target: Target): Result<Decision, Error>
    requires active.Some? ==> active.value in t.jobs
  {
    if active.None? then Success(Create)
    else
      var job := t.jobs[active.value];
      if job.radarOnly then Success(DeferForcedRun)
      else if job.status.Queued? then Success(RefreshQueued(active.value))
      else if job.status.Running? then
        if job.started.Some? && job.started.value >= target.accepted && job.version == target.version
        then Success(JoinRunning(active.value, job.attempts))
        else Success(DeferForcedRun)
      else Failure(InvalidRecordValue)
  }

  function NewJob(desired: Desired, radarOnly: bool): Job {
    Job(radarOnly, desired.revision, desired.version, Queued, None, 0)
  }

  function RefreshJob(job: Job, desired: Desired): Job {
    job.(revision := desired.revision, version := desired.version)
  }

  /** `assign_campaign_target`: the title with its job arranged, and the request still to be inserted. */
  function Assign(t: Title, c: CampaignId, desired: Desired, decision: Decision, target: Target)
    : Result<(Title, Request), Error>
    requires decision.RefreshQueued? ==> decision.queued in t.jobs
  {
    var request := Request(target.revision, target.version, target.accepted, Pending, None, None, None);
    match decision
    case Create =>
      if ForTarget(c) in t.jobs then Failure(UniqueViolation)
      else Success((t.(jobs := t.jobs[ForTarget(c) := NewJob(desired, false)]), request.(job := Some(ForTarget(c)))))
    case RefreshQueued(j) =>
      Success((t.(jobs := t.jobs[j := RefreshJob(t.jobs[j], desired)]), request.(job := Some(j))))
    case JoinRunning(j, n) => Success((t, request.(status := Assigned, job := Some(j), attempt := Some(n))))
    case DeferForcedRun => Success((t.(pendingWork := true), request))
  }

  /** `materialize_campaign_target`. */
  function Materialize(t: Title, c: CampaignId, desired: Desired, active: Option<JobId>): Result<Title, Error>
    requires c in t.targets && (active.Some? ==> active.value in t.jobs)
  {
    var target := t.targets[c];
    var decision := Decide(t, active, target);
    if decision.Failure? then Failure(decision.error)
    else
      var placed := Assign(t, c, desired, decision.value, target);
      if placed.Failure? then Failure(placed.error)
      else if ForCampaign(c) in t.requests then Failure(UniqueViolation)
      else
        var (u, request) := placed.value;
        Success(u.(requests := u.requests[ForCampaign(c) := request],
                   targets := u.targets[c := target.(status := Expanded)]))
  }

  /** `expand_campaign_target`: whether the target was still pending, and the title afterwards. */
  function Expand(t: Title, c: CampaignId, active: Option<JobId>): Result<(Title, bool), Error>
    requires active.Some? ==> active.value in t.jobs
  {
    if c !in t.targets || !t.targets[c].status.TargetPending? then Success((t, false))
    else if !IsValidTarget(t.targets[c]) then Failure(InvalidRecordValue)
    else if t.desired.None? then Success((t.(targets := t.targets[c := t.targets[c].(status := Skipped)]), true))
    else
      var done := Materialize(t, c, t.desired.value, active);
      if done.Failure? then Failure(done.error) else Success((done.value, true))
  }

  // ---------------------------------------------------------------- the life of a job

  datatype Intent = RadarIntent(radar: RadarId) | RequestIntent(request: RequestId)

  predicate IsIntent(t: Title, i: Intent) {
    match i
    case RadarIntent(o) => o in t.radar && t.radar[o].waiting
    case RequestIntent(r) => r in t.requests && t.requests[r].status.Pending?
  }

  function AcceptedAt(t: Title, i: Intent): int
    requires IsIntent(t, i)
  {
    match i
    case RadarIntent(o) => t.radar[o].requested
    case RequestIntent(r) => t.requests[r].accepted
  }

  /** What the query for the oldest intent may return. */
  ghost predicate OldestIntent(t: Title, pick: Option<Intent>) {
    && (pick.None? ==> forall i :: !IsIntent(t, i))
    && (pick.Some? ==> IsIntent(t, pick.value) && forall i | IsIntent(t, i) ::
         AcceptedAt(t, pick.value) <= AcceptedAt(t, i))
  }

  /** `materialize_next`: without an active job, the oldest intent gets one. */
  function Next(t: Title, supported: Version, active: Option<JobId>, pick: Option<Intent>): Result<Title, Error> {
    if t.desired.None? || t.desired.value.version != supported || active.Some? || pick.None? then Success(t)
    else
      match pick.value
      case RadarIntent(o) =>
        if ForRadar(o) in t.jobs then Failure(UniqueViolation)
        else if o !in t.radar then Success(t)
        else Success(t.(jobs := t.jobs[ForRadar(o) := NewJob(t.desired.value, !t.radar[o].apply)],
                        radar := t.radar[o := t.radar[o].(waiting := false)]))
      case RequestIntent(r) =>
        if FollowUp(r) in t.jobs then Failure(UniqueViolation)
        else Success(t.(jobs := t.jobs[FollowUp(r) := NewJob(t.desired.value, false)],
                        requests := map q | q in t.requests :: Bound(t.requests[q], FollowUp(r)), pendingWork := true))
  }

  /** A pending request moves to the new job. */
  function Bound(r: Request, j: JobId): Request {
    if r.status.Pending? then r.(job := Some(j), attempt := None) else r
  }

  /** `persist_claim` with `mark_associated_requests_running`, for a worker of the supported version. */
  function Claim(t: Title, j: JobId, supported: Version): Title {
    if j !in t.jobs || !t.jobs[j].status.Queued? || t.jobs[j].version != supported || t.desired.None? then t
    else
      var job := t.jobs[j].(status := Running, started := Some(t.clock), attempts := t.jobs[j].attempts + 1);
      var u := t.(jobs := t.jobs[j := job]);
      if job.radarOnly then u
      else u.(requests := map q | q in t.requests :: Joined(t.requests[q], j, job.attempts, t.clock))
  }

  /** A pending request of the claimed job that was accepted by now rides on the attempt. */
  function Joined(r: Request, j: JobId, n: nat, now: int): Request {
    if r.status.Pending? && r.job == Some(j) && r.accepted <= now then r.(status := Assigned, attempt := Some(n)) else r
  }

  predicate Owned(t: Title, j: JobId, n: nat) {
    t.desired.Some? && j in t.jobs && t.jobs[j].status.Running? && t.jobs[j].attempts == n
  }

  predicate AssignedTo(r: Request, j: JobId, n: nat) { r.job == Some(j) && r.attempt == Some(n) }

  /** `fulfill_requests`: the assigned requests of the attempt, then the targets of its fulfilled ones. */
  function Fulfil(t: Title, j: JobId, n: nat, ok: bool): Title
    requires j in t.jobs
  {
    var requests := map q | q in t.requests :: Served(t.requests[q], j, n, t.jobs[j].started);
    t.(requests := requests,
       targets := map c | c in t.targets ::
         if ForCampaign(c) in requests && requests[ForCampaign(c)].status.Fulfilled?
             && AssignedTo(requests[ForCampaign(c)], j, n)
         then t.targets[c].(status := if ok then TargetSucceeded else TargetFailed) else t.targets[c])
  }

  function Served(r: Request, j: JobId, n: nat, started: Option<int>): Request {
    if r.status.Assigned? && AssignedTo(r, j, n) then r.(status := Fulfilled, served := started) else r
  }

  /** The end of an attempt, successful or not, up to its follow-up. */
  function End(t: Title, j: JobId, n: nat, ok: bool): Title
    requires Owned(t, j, n)
  {
    var ended := t.(jobs := t.jobs[j := t.jobs[j].(status := if ok then Succeeded else Failed)],
                    pendingWork := t.pendingWork && t.jobs[j].radarOnly);
    Fulfil(ended, j, n, ok)
  }

  function Finish(t: Title, j: JobId, n: nat, ok: bool, supported: Version, pick: Option<Intent>)
    : Result<Title, Error>
  {
    if !Owned(t, j, n) then Failure(OwnerLost)
    else Next(End(t, j, n, ok), supported, None, pick)
  }

  /** An interrupted, retried or expired attempt: the job waits again, with the version it had. */
  function Requeue(t: Title, j: JobId, n: nat): Title {
    if !Owned(t, j, n) then t
    else t.(jobs := t.jobs[j := t.jobs[j].(status := Queued, started := None)],
            requests := map q | q in t.requests :: Freed(t.requests[q], j, n))
  }

  /** `release_attempt_requests`, whatever the status. */
  function Freed(r: Request, j: JobId, n: nat): Request {
    if AssignedTo(r, j, n) then r.(status := Pending, attempt := None) else r
  }

  /** An attempt whose inputs are no longer current: the job waits again, with the desired version. */
  function Supersede(t: Title, j: JobId, n: nat): Title {
    if !Owned(t, j, n) then t
    else
      var u := Requeue(t, j, n);
      u.(jobs := u.jobs[j := RefreshJob(u.jobs[j], t.desired.value)])
  }

  /** What a promotion does to one title: its desired version and its queued job move together. */
  function Release(t: Title, version: Version, eligible: bool): Title {
    if t.desired.None? then t
    else
      var desired := t.desired.value.(version := version);
      t.(desired := Some(desired), pendingWork := t.pendingWork || eligible,
         jobs := map j | j in t.jobs :: if t.jobs[j].status.Queued? then RefreshJob(t.jobs[j], desired) else t.jobs[j])
  }

  /** A request through the API, for an edit (which raises the revision) or a manual recalculation. */
  function Ask(t: Title, n: int, edit: bool, active: Option<JobId>): Title
    requires active.Some? ==> active.value in t.jobs
  {
    if t.desired.None? || Api(n) in t.requests || Other(n) in t.jobs then t
    else
      var desired := t.desired.value.(revision := t.desired.value.revision + if edit then 1 else 0);
      var u := t.(desired := Some(desired));
      var request := Request(desired.revision, desired.version, t.clock, Pending, None, None, None);
      if active.None? then
        u.(jobs := u.jobs[Other(n) := NewJob(desired, false)], pendingWork := u.pendingWork || edit,
           requests := u.requests[Api(n) := request.(job := Some(Other(n)))])
      else
        var job := t.jobs[active.value];
        if job.status.Queued? && !job.radarOnly then
          u.(jobs := u.jobs[active.value := RefreshJob(job, desired)], pendingWork := u.pendingWork || edit,
             requests := u.requests[Api(n) := request.(job := active)])
        else
          u.(pendingWork := true,
             requests := u.requests[Api(n) := request.(job := if edit && !job.radarOnly then active else None)])
  }

  /** The deletion of the title ends all its open work. */
  function Delete(t: Title): Title {
    t.(desired := None, pendingWork := false, jobs := map[], requests := map[], radar := map[],
       targets := map c | c in t.targets ::
         if t.targets[c].status.TargetPending? || t.targets[c].status.Expanded? then t.targets[c].(status := Skipped)
         else t.targets[c])
  }

  datatype Event =
    | Accept(campaign: CampaignId, target: Target)
    | ExpandTarget(campaign: CampaignId, active: Option<JobId>)
    | ClaimJob(job: JobId, supported: Version)
    | FinishAttempt(job: JobId, attempt: nat, ok: bool, supported: Version, pick: Option<Intent>)
    | RequeueAttempt(job: JobId, attempt: nat)
    | SupersedeAttempt(job: JobId, attempt: nat)
    | ScanIntents(supported: Version, active: Option<JobId>, pick: Option<Intent>)
    | PlanRadar(radar: RadarId, apply: bool)
    | Promote(version: Version, eligible: bool)
    | AskApi(number: int, edit: bool, active: Option<JobId>)
    | DeleteTitle
    | Tick(to: int)

  function OrUnchanged<E>(t: Title, r: Result<Title, E>): Title { if r.Success? then r.value else t }

  /** A transaction that fails is rolled back; one whose queries cannot return what the event says does
  not happen. */
  ghost function Step(t: Title, e: Event): Title {
    match e
    case Accept(c, target) =>
      if c in t.targets || t.desired.None? || target.accepted > t.clock then t
      else t.(targets := t.targets[c := target.(status := TargetPending)])
    case ExpandTarget(c, active) =>
      if !ActiveRow(t, active) then t
      else
        var done := Expand(t, c, active);
        if done.Failure? then t else done.value.0
    case ClaimJob(j, supported) => Claim(t, j, supported)
    case FinishAttempt(j, n, ok, supported, pick) =>
      if Owned(t, j, n) && OldestIntent(End(t, j, n, ok), pick)
      then OrUnchanged(t, Finish(t, j, n, ok, supported, pick)) else t
    case RequeueAttempt(j, n) => Requeue(t, j, n)
    case SupersedeAttempt(j, n) => Supersede(t, j, n)
    case ScanIntents(supported, active, pick) =>
      if ActiveRow(t, active) && OldestIntent(t, pick) then OrUnchanged(t, Next(t, supported, active, pick)) else t
    case PlanRadar(o, apply) =>
      if o in t.radar || t.desired.None? then t else t.(radar := t.radar[o := Radar(apply, t.clock, true)])
    case Promote(version, eligible) => Release(t, version, eligible)
    case AskApi(n, edit, active) => if ActiveRow(t, active) then Ask(t, n, edit, active) else t
    case DeleteTitle => Delete(t)
    case Tick(to) => if to > t.clock then t.(clock := to) else t
  }

  ghost function Run(t: Title, es: seq<Event>): Title
    decreases es
  {
    if es == [] then t else Run(Step(t, es[0]), es[1..])
  }

  function Fresh(desired: Desired, clock: int): Title {
    Title(Some(desired), false, map[], map[], map[], map[], clock)
  }

  // ---------------------------------------------------------------- the invariant

  ghost predicate OneActive(jobs: map<JobId, Job>) {
    forall j, k | j in jobs && k in jobs && Active(jobs[j]) && Active(jobs[k]) :: j == k
  }

  /** A job exists because of its request or radar operation. A follow-up belongs to its request for good:
  it waits exactly as long as the request does. */
  predicate JobOk(t: Title, j: JobId, job: Job) {
    && (job.status.Running? ==> job.started.Some?)
    && match j
       case ForTarget(c) => ForCampaign(c) in t.requests
       case Other(n) => Api(n) in t.requests
       case ForRadar(o) => o in t.radar && !t.radar[o].waiting
       case FollowUp(r) => !job.radarOnly && r in t.requests && t.requests[r].job == Some(j)
                           && (t.requests[r].status.Pending? ==> job.status.Queued?)
  }

  /** An assigned request rides on the running attempt, which started after it was accepted; a fulfilled
  one was served by such an attempt. */
  predicate RequestOk(jobs: map<JobId, Job>, clock: int, r: Request) {
    && r.accepted <= clock
    && (r.status.Pending? ==> r.attempt.None?)
    && (r.job.Some? ==> r.job.value in jobs)
    && (!r.status.Pending? ==> r.job.Some? && r.attempt.Some?)
    && (r.status.Assigned? ==> var job := jobs[r.job.value];
                               job.status.Running? && !job.radarOnly && r.attempt == Some(job.attempts)
                               && job.started.Some? && r.accepted <= job.started.value)
    && (r.status.Fulfilled? ==> !Active(jobs[r.job.value]) && r.served.Some? && r.accepted <= r.served.value)
  }

  /** A target has its one request exactly from its expansion on, and ends with it. */
  predicate TargetOk(requests: map<RequestId, Request>, clock: int, c: CampaignId, target: Target) {
    var q := ForCampaign(c);
    match target.status
    case TargetPending => q !in requests && target.accepted <= clock
    case Skipped => q !in requests
    case Expanded => q in requests && !requests[q].status.Fulfilled?
    case _ => q in requests && requests[q].status.Fulfilled?
  }

  ghost predicate JobsOk(t: Title) { forall j | j in t.jobs :: JobOk(t, j, t.jobs[j]) }

  ghost predicate RequestsOk(t: Title) {
    forall q | q in t.requests ::
        RequestOk(t.jobs, t.clock, t.requests[q]) && (q.ForCampaign? ==> q.campaign in t.targets)
  }

  ghost predicate TargetsOk(t: Title) {
    if t.desired.None? then t.requests == map[] && t.jobs == map[]
    else forall c | c in t.targets :: TargetOk(t.requests, t.clock, c, t.targets[c])
  }

  ghost predicate Inv(t: Title) { OneActive(t.jobs) && JobsOk(t) && RequestsOk(t) && TargetsOk(t) }

  /** Work that no transaction takes back. */
  ghost predicate Advances(t: Title, u: Title) {
    && (forall c | c in t.targets :: c in u.targets && TargetFollows(t.targets[c], u.targets[c]))
    && (u.desired.Some? ==> t.desired.Some?)
    && (u.desired.Some? ==>
         forall q | q in t.requests :: q in u.requests && RequestFollows(t.requests[q], u.requests[q]))
    && t.clock <= u.clock
  }

  predicate TargetFollows(was: Target, now: Target) {
    && now == was.(status := now.status)
    && (was.status != now.status ==> was.status.TargetPending? || was.status.Expanded?)
    && (now.status.TargetPending? ==> was.status.TargetPending?)
  }

  predicate RequestFollows(was: Request, now: Request) {
    && now == was.(status := now.status, job := now.job, attempt := now.attempt, served := now.served)
    && (was.status.Fulfilled? ==> now == was)
  }

  // ---------------------------------------------------------------- one transaction

  predicate SameJob(was: Job, now: Job) { now == was.(revision := now.revision, version := now.version) }

  function JobFor(q: RequestId): JobId {
    match q
    case ForCampaign(c) => ForTarget(c)
    case Api(n) => Other(n)
  }

  /** The jobs after an insertion: the same ones up to their versions, and at most one that is new. */
  ghost predicate JobsInserted(before: map<JobId, Job>, after: map<JobId, Job>, q: RequestId, added: Option<JobId>) {
    && (forall j | j in before :: j in after && SameJob(before[j], after[j]))
    && (forall j | j in after :: j in before || added == Some(j))
    && (added.Some? ==>
          && added.value in after && after[added.value].status.Queued?
          && added.value == JobFor(q)
          && forall j | j in before :: !Active(before[j]))
  }

  lemma NoJobInserted(jobs: map<JobId, Job>, q: RequestId)
    ensures JobsInserted(jobs, jobs, q, None)
  {
  }

  lemma JobRefreshed(jobs: map<JobId, Job>, q: RequestId, j: JobId, desired: Desired)
    requires j in jobs
    ensures JobsInserted(jobs, jobs[j := RefreshJob(jobs[j], desired)], q, None)
  {
  }

  lemma JobInserted(jobs: map<JobId, Job>, q: RequestId, desired: Desired)
    requires JobFor(q) !in jobs && forall j | j in jobs :: !Active(jobs[j])
    ensures JobsInserted(jobs, jobs[JobFor(q) := NewJob(desired, false)], q, Some(JobFor(q)))
  {
  }

  lemma InsertedJobsAreOk(t: Title, u: Title, q: RequestId, request: Request, added: Option<JobId>)
    requires OneActive(t.jobs) && JobsOk(t) && u.radar == t.radar
    requires q !in t.requests && u.requests == t.requests[q := request]
    requires JobsInserted(t.jobs, u.jobs, q, added)
    ensures OneActive(u.jobs) && JobsOk(u)
  {
    forall j | j in u.jobs ensures JobOk(u, j, u.jobs[j]) {
      if j in t.jobs { assert JobOk(t, j, t.jobs[j]); }
    }
  }

  lemma OldRequestIsOk(before: map<JobId, Job>, after: map<JobId, Job>, q: RequestId, added: Option<JobId>, clock: int,
      r: Request)
    requires JobsInserted(before, after, q, added) && RequestOk(before, clock, r)
    ensures RequestOk(after, clock, r)
  {
  }

  /** A new request, with at most one new job made for it. */
  lemma InsertKeeps(t: Title, u: Title, q: RequestId, request: Request, added: Option<JobId>)
    requires Inv(t) && t.desired.Some? && u.desired.Some? && u.radar == t.radar && u.clock == t.clock
    requires q !in t.requests && u.requests == t.requests[q := request]
    requires JobsInserted(t.jobs, u.jobs, q, added)
    requires RequestOk(u.jobs, u.clock, request) && !request.status.Fulfilled?
    requires q.Api? ==> u.targets == t.targets
    requires q.ForCampaign? ==> q.campaign in t.targets && t.targets[q.campaign].status.TargetPending?
                                && u.targets == t.targets[q.campaign := t.targets[q.campaign].(status := Expanded)]
    ensures Inv(u) && Advances(t, u)
  {
    InsertedJobsAreOk(t, u, q, request, added);
    hide OneActive, JobsOk, JobsInserted, RequestOk;
    forall p | p in u.requests
      ensures RequestOk(u.jobs, u.clock, u.requests[p]) && (p.ForCampaign? ==> p.campaign in u.targets) {
      if p != q { OldRequestIsOk(t.jobs, u.jobs, q, added, t.clock, t.requests[p]); }
    }
    forall c | c in u.targets ensures TargetOk(u.requests, u.clock, c, u.targets[c]) {
      assert TargetOk(t.requests, t.clock, c, t.targets[c]);
    }
  }

  /** The ids an expansion is about to insert are new. */
  lemma IdsAreNew(t: Title, c: CampaignId)
    requires Inv(t) && t.desired.Some? && c in t.targets && t.targets[c].status.TargetPending?
    ensures ForCampaign(c) !in t.requests && ForTarget(c) !in t.jobs && t.targets[c].accepted <= t.clock
  {
    hide OneActive, RequestsOk;
    assert TargetOk(t.requests, t.clock, c, t.targets[c]);
    assert ForTarget(c) in t.jobs ==> JobOk(t, ForTarget(c), t.jobs[ForTarget(c)]);
  }

  lemma DecideSucceeds(t: Title, active: Option<JobId>, target: Target)
    requires ActiveRow(t, active)
    ensures Decide(t, active, target).Success?
  {
  }

  lemma MaterializeKeeps(t: Title, c: CampaignId, active: Option<JobId>)
    requires Inv(t) && ActiveRow(t, active) && t.desired.Some? && c in t.targets && t.targets[c].status.TargetPending?
    ensures Materialize(t, c, t.desired.value, active).Success?
    ensures var u := Materialize(t, c, t.desired.value, active).value; Inv(u) && Advances(t, u)
  {
    IdsAreNew(t, c);
    DecideSucceeds(t, active, t.targets[c]);
    hide Inv, Advances, JobsInserted;
    var (desired, q) := (t.desired.value, ForCampaign(c));
    var u := Materialize(t, c, desired, active).value;
    match Decide(t, active, t.targets[c]).value {
      case Create =>
        JobInserted(t.jobs, q, desired);
        InsertKeeps(t, u, q, u.requests[q], Some(ForTarget(c)));
      case RefreshQueued(j) =>
        JobRefreshed(t.jobs, q, j, desired);
        InsertKeeps(t, u, q, u.requests[q], None);
      case _ =>
        NoJobInserted(t.jobs, q);
        InsertKeeps(t, u, q, u.requests[q], None);
    }
  }

  lemma ExpandKeeps(t: Title, c: CampaignId, active: Option<JobId>)
    requires Inv(t) && ActiveRow(t, active)
    ensures Inv(Step(t, ExpandTarget(c, active))) && Advances(t, Step(t, ExpandTarget(c, active)))
  {
    hide OneActive, IsValidTarget, Materialize;
    if c in t.targets && t.targets[c].status.TargetPending? && IsValidTarget(t.targets[c]) && t.desired.Some? {
      MaterializeKeeps(t, c, active);
    }
  }

  lemma SameActive(before: map<JobId, Job>, after: map<JobId, Job>)
    requires OneActive(before)
    requires forall j | j in after && Active(after[j]) :: j in before && Active(before[j])
    ensures OneActive(after)
  {
  }

  // What each transaction does to one request, one job and one target at a time.

  lemma JoinedIsOk(jobs: map<JobId, Job>, clock: int, r: Request, j: JobId)
    requires RequestOk(jobs, clock, r) && j in jobs && jobs[j].status.Queued?
    ensures var job := jobs[j].(status := Running, started := Some(clock), attempts := jobs[j].attempts + 1);
            && RequestOk(jobs[j := job], clock, r)
            && (!job.radarOnly ==> RequestOk(jobs[j := job], clock, Joined(r, j, job.attempts, clock)))
    ensures RequestFollows(r, r) && RequestFollows(r, Joined(r, j, jobs[j].attempts + 1, clock))
  {
  }

  lemma ServedIsOk(jobs: map<JobId, Job>, clock: int, r: Request, j: JobId, n: nat, status: JobStatus)
    requires RequestOk(jobs, clock, r) && j in jobs && jobs[j].status.Running? && jobs[j].attempts == n
               && jobs[j].started.Some?
    requires status.Succeeded? || status.Failed?
    ensures RequestOk(jobs[j := jobs[j].(status := status)], clock, Served(r, j, n, jobs[j].started))
    ensures RequestFollows(r, Served(r, j, n, jobs[j].started))
  {
  }

  lemma FreedIsOk(jobs: map<JobId, Job>, clock: int, r: Request, j: JobId, n: nat)
    requires RequestOk(jobs, clock, r) && j in jobs && jobs[j].status.Running? && jobs[j].attempts == n
    ensures RequestOk(jobs[j := jobs[j].(status := Queued, started := None)], clock, Freed(r, j, n))
    ensures RequestFollows(r, Freed(r, j, n)) && (Freed(r, j, n).status.Fulfilled? <==> r.status.Fulfilled?)
  {
  }

  lemma BoundIsOk(jobs: map<JobId, Job>, clock: int, r: Request, j: JobId, job: Job)
    requires RequestOk(jobs, clock, r) && j !in jobs && job.status.Queued?
    ensures RequestOk(jobs[j := job], clock, Bound(r, j)) && RequestOk(jobs[j := job], clock, r)
    ensures RequestFollows(r, Bound(r, j)) && RequestFollows(r, r)
              && (Bound(r, j).status.Fulfilled? <==> r.status.Fulfilled?)
  {
  }

  /** A target looks only at whether its request is there and fulfilled. */
  lemma SameTarget(before: map<RequestId, Request>, after: map<RequestId, Request>, clock: int, c: CampaignId,
      target: Target)
    requires TargetOk(before, clock, c, target)
    requires ForCampaign(c) in after <==> ForCampaign(c) in before
    requires ForCampaign(c) in after ==>
               (after[ForCampaign(c)].status.Fulfilled? <==> before[ForCampaign(c)].status.Fulfilled?)
    ensures TargetOk(after, clock, c, target)
  {
  }

  /** The requests of `u` are those of `t`, each moved on by one of the lemmas above. */
  lemma RequestsAdvance(t: Title, u: Title)
    requires u.requests.Keys == t.requests.Keys && u.targets.Keys == t.targets.Keys && u.clock == t.clock
    requires RequestsOk(t) && (u.desired.Some? ==> t.desired.Some?)
    requires forall q | q in t.requests ::
               RequestOk(u.jobs, u.clock, u.requests[q]) && RequestFollows(t.requests[q], u.requests[q])
    requires forall c | c in t.targets :: TargetFollows(t.targets[c], u.targets[c])
    ensures RequestsOk(u) && Advances(t, u)
  {
    hide RequestFollows, TargetFollows;
    forall q | q in u.requests
      ensures RequestOk(u.jobs, u.clock, u.requests[q]) && (q.ForCampaign? ==> q.campaign in u.targets) {
      assert q in t.requests;
    }
  }

  lemma ClaimRequests(t: Title, j: JobId, supported: Version)
    requires RequestsOk(t) && Claim(t, j, supported) != t
    ensures var u := Claim(t, j, supported); RequestsOk(u) && Advances(t, u)
  {
    hide RequestOk, RequestFollows, Advances, Joined;
    var u := Claim(t, j, supported);
    forall q | q in t.requests
      ensures RequestOk(u.jobs, u.clock, u.requests[q]) && RequestFollows(t.requests[q], u.requests[q]) {
      JoinedIsOk(t.jobs, t.clock, t.requests[q], j);
    }
    RequestsAdvance(t, u);
  }

  lemma ClaimOneTarget(t: Title, j: JobId, supported: Version, c: CampaignId)
    requires c in t.targets && TargetOk(t.requests, t.clock, c, t.targets[c])
    ensures var u := Claim(t, j, supported); TargetOk(u.requests, u.clock, c, t.targets[c])
  {
    SameTarget(t.requests, Claim(t, j, supported).requests, t.clock, c, t.targets[c]);
    hide TargetOk;
  }

  lemma ClaimKeeps(t: Title, j: JobId, supported: Version)
    requires Inv(t)
    ensures Inv(Claim(t, j, supported)) && Advances(t, Claim(t, j, supported))
  {
    hide OneActive, RequestsOk, TargetOk, JobOk, RequestOk, Advances, Joined;
    var u := Claim(t, j, supported);
    Unchanged(t);
    if u != t {
      SameActive(t.jobs, u.jobs);
      forall k | k in u.jobs ensures JobOk(u, k, u.jobs[k]) {
        ClaimOneJob(t, j, supported, k);
      }
      ClaimRequests(t, j, supported);
      forall c | c in u.targets ensures TargetOk(u.requests, u.clock, c, u.targets[c]) {
        ClaimOneTarget(t, j, supported, c);
      }
    }
  }

  lemma ClaimOneJob(t: Title, j: JobId, supported: Version, k: JobId)
    requires JobsOk(t) && RequestsOk(t) && k in t.jobs
    ensures var u := Claim(t, j, supported); JobOk(u, k, u.jobs[k])
  {
    assert JobOk(t, k, t.jobs[k]);
    if k.FollowUp? { assert RequestOk(t.jobs, t.clock, t.requests[k.request]); }
  }

  lemma EndOneJob(t: Title, j: JobId, n: nat, ok: bool, k: JobId)
    requires JobsOk(t) && RequestsOk(t) && Owned(t, j, n) && k in t.jobs
    ensures var u := End(t, j, n, ok); JobOk(u, k, u.jobs[k])
  {
    assert JobOk(t, k, t.jobs[k]);
    if k.FollowUp? { assert RequestOk(t.jobs, t.clock, t.requests[k.request]); }
  }

  /** A target ends exactly with its request. */
  lemma EndOneTarget(t: Title, j: JobId, n: nat, ok: bool, c: CampaignId)
    requires Owned(t, j, n) && c in t.targets && TargetOk(t.requests, t.clock, c, t.targets[c])
    requires ForCampaign(c) in t.requests ==> RequestOk(t.jobs, t.clock, t.requests[ForCampaign(c)])
    ensures var u := End(t, j, n, ok);
            TargetOk(u.requests, u.clock, c, u.targets[c]) && TargetFollows(t.targets[c], u.targets[c])
  {
  }

  lemma EndRequests(t: Title, j: JobId, n: nat, ok: bool)
    requires Inv(t) && Owned(t, j, n)
    ensures var u := End(t, j, n, ok); RequestsOk(u) && TargetsOk(u) && Advances(t, u)
  {
    hide OneActive, TargetOk, JobOk, RequestOk, RequestFollows, TargetFollows, Advances, Served;
    var u := End(t, j, n, ok);
    RunningHasStarted(t, j);
    forall q | q in t.requests
      ensures RequestOk(u.jobs, u.clock, u.requests[q]) && RequestFollows(t.requests[q], u.requests[q]) {
      ServedIsOk(t.jobs, t.clock, t.requests[q], j, n, if ok then Succeeded else Failed);
    }
    forall c | c in t.targets
      ensures TargetOk(u.requests, u.clock, c, u.targets[c]) && TargetFollows(t.targets[c], u.targets[c]) {
      EndOneTarget(t, j, n, ok, c);
    }
    RequestsAdvance(t, u);
  }

  lemma EndKeeps(t: Title, j: JobId, n: nat, ok: bool)
    requires Inv(t) && Owned(t, j, n)
    ensures Inv(End(t, j, n, ok)) && Advances(t, End(t, j, n, ok)) && ActiveRow(End(t, j, n, ok), None)
  {
    hide RequestsOk, TargetsOk, RequestOk, TargetOk, JobOk, Advances, Fulfil;
    var u := End(t, j, n, ok);
    EndJobs(t, j, n, ok);
    EndRequests(t, j, n, ok);
    hide End;
    SameActive(t.jobs, u.jobs);
    forall k | k in u.jobs ensures JobOk(u, k, u.jobs[k]) {
      EndOneJob(t, j, n, ok, k);
    }
  }

  lemma EndJobs(t: Title, j: JobId, n: nat, ok: bool)
    requires OneActive(t.jobs) && Owned(t, j, n)
    ensures var u := End(t, j, n, ok);
            u.jobs.Keys == t.jobs.Keys && forall k | k in u.jobs :: !Active(u.jobs[k])
  {
    var u := End(t, j, n, ok);
    forall k | k in u.jobs ensures !Active(u.jobs[k]) {
      assert k != j ==> u.jobs[k] == t.jobs[k];
    }
  }

  lemma RunningHasStarted(t: Title, j: JobId)
    requires JobsOk(t) && j in t.jobs && t.jobs[j].status.Running?
    ensures t.jobs[j].started.Some?
  {
    assert JobOk(t, j, t.jobs[j]);
  }

  /** The job id of a follow-up is new: an earlier follow-up of the same intent would have served it. */
  lemma NextIdIsNew(t: Title, active: Option<JobId>, i: Intent)
    requires Inv(t) && ActiveRow(t, active) && active.None? && IsIntent(t, i)
    ensures match i
            case RadarIntent(o) => ForRadar(o) !in t.jobs
            case RequestIntent(r) => FollowUp(r) !in t.jobs
  {
    var id := match i case RadarIntent(o) => ForRadar(o) case RequestIntent(r) => FollowUp(r);
    assert id in t.jobs ==> JobOk(t, id, t.jobs[id]);
  }

  lemma NextIsOnly(t: Title, supported: Version, pick: Option<Intent>)
    requires forall j | j in t.jobs :: !Active(t.jobs[j])
    requires Next(t, supported, None, pick).Success?
    ensures OneActive(Next(t, supported, None, pick).value.jobs)
  {
  }

  lemma NextOneJob(t: Title, supported: Version, pick: Option<Intent>, k: JobId)
    requires JobsOk(t) && (forall j | j in t.jobs :: !Active(t.jobs[j]))
    requires pick.Some? ==> IsIntent(t, pick.value)
    requires Next(t, supported, None, pick).Success? && k in Next(t, supported, None, pick).value.jobs
    ensures var u := Next(t, supported, None, pick).value; JobOk(u, k, u.jobs[k])
  {
    if k in t.jobs { assert JobOk(t, k, t.jobs[k]) && !Active(t.jobs[k]); }
  }

  lemma NextKeeps(t: Title, supported: Version, active: Option<JobId>, pick: Option<Intent>)
    requires Inv(t) && ActiveRow(t, active) && OldestIntent(t, pick)
    ensures Next(t, supported, active, pick).Success?
    ensures var u := Next(t, supported, active, pick).value; Inv(u) && Advances(t, u)
  {
    Unchanged(t);
    if t.desired.Some? && t.desired.value.version == supported && active.None? && pick.Some? {
      NextIdIsNew(t, active, pick.value);
      var u := Next(t, supported, active, pick).value;
      NextIsOnly(t, supported, pick);
      hide OneActive, TargetOk, JobOk, RequestOk, RequestFollows, Advances, Bound, OldestIntent;
      forall k | k in u.jobs ensures JobOk(u, k, u.jobs[k]) {
        NextOneJob(t, supported, pick, k);
      }
      var id := match pick.value case RadarIntent(o) => ForRadar(o) case RequestIntent(r) => FollowUp(r);
      forall q | q in t.requests
        ensures RequestOk(u.jobs, u.clock, u.requests[q]) && RequestFollows(t.requests[q], u.requests[q])
        ensures u.requests[q].status.Fulfilled? <==> t.requests[q].status.Fulfilled?
      {
        BoundIsOk(t.jobs, t.clock, t.requests[q], id, u.jobs[id]);
      }
      RequestsAdvance(t, u);
      forall c | c in u.targets ensures TargetOk(u.requests, u.clock, c, u.targets[c]) {
        SameTarget(t.requests, u.requests, t.clock, c, t.targets[c]);
      }
    }
  }

  lemma RequeueOneJob(t: Title, j: JobId, n: nat, k: JobId)
    requires JobsOk(t) && RequestsOk(t) && k in t.jobs
    ensures var u := Requeue(t, j, n); JobOk(u, k, u.jobs[k])
  {
    assert JobOk(t, k, t.jobs[k]);
    if k.FollowUp? { assert RequestOk(t.jobs, t.clock, t.requests[k.request]); }
  }

  lemma RequeueKeeps(t: Title, j: JobId, n: nat)
    requires Inv(t)
    ensures Inv(Requeue(t, j, n)) && Advances(t, Requeue(t, j, n))
  {
    var u := Requeue(t, j, n);
    Unchanged(t);
    if Owned(t, j, n) {
      SameActive(t.jobs, u.jobs);
      hide OneActive, TargetOk, JobOk, RequestOk, RequestFollows, Advances, Freed;
      forall k | k in u.jobs ensures JobOk(u, k, u.jobs[k]) {
        RequeueOneJob(t, j, n, k);
      }
      forall q | q in t.requests
        ensures RequestOk(u.jobs, u.clock, u.requests[q]) && RequestFollows(t.requests[q], u.requests[q])
        ensures u.requests[q].status.Fulfilled? <==> t.requests[q].status.Fulfilled?
      {
        FreedIsOk(t.jobs, t.clock, t.requests[q], j, n);
      }
      RequestsAdvance(t, u);
      forall c | c in u.targets ensures TargetOk(u.requests, u.clock, c, u.targets[c]) {
        SameTarget(t.requests, u.requests, t.clock, c, t.targets[c]);
      }
    }
  }

  /** New versions of the jobs change nothing else. */
  lemma VersionsKeep(t: Title, u: Title)
    requires Inv(t) && t.desired.Some? && u.desired.Some?
    requires u == t.(desired := u.desired, pendingWork := u.pendingWork, jobs := u.jobs)
    requires u.jobs.Keys == t.jobs.Keys && forall j | j in t.jobs :: SameJob(t.jobs[j], u.jobs[j])
    ensures Inv(u) && Advances(t, u)
  {
    forall k | k in u.jobs ensures JobOk(u, k, u.jobs[k]) {
      assert JobOk(t, k, t.jobs[k]);
    }
    forall q | q in u.requests
      ensures RequestOk(u.jobs, u.clock, u.requests[q]) && (q.ForCampaign? ==> q.campaign in u.targets) {
      assert RequestOk(t.jobs, t.clock, t.requests[q]);
    }
  }

  lemma SupersedeKeeps(t: Title, j: JobId, n: nat)
    requires Inv(t)
    ensures Inv(Supersede(t, j, n)) && Advances(t, Supersede(t, j, n))
  {
    hide Inv;
    RequeueKeeps(t, j, n);
    if Owned(t, j, n) {
      VersionsKeep(Requeue(t, j, n), Supersede(t, j, n));
    }
  }

  lemma ReleaseKeeps(t: Title, version: Version, eligible: bool)
    requires Inv(t)
    ensures Inv(Release(t, version, eligible)) && Advances(t, Release(t, version, eligible))
  {
    hide Inv, Advances;
    if t.desired.Some? {
      VersionsKeep(t, Release(t, version, eligible));
    } else {
      Unchanged(t);
    }
  }

  lemma Unchanged(t: Title)
    ensures Advances(t, t)
  {
  }

  lemma AskKeeps(t: Title, n: int, edit: bool, active: Option<JobId>)
    requires Inv(t) && ActiveRow(t, active)
    ensures Inv(Ask(t, n, edit, active)) && Advances(t, Ask(t, n, edit, active))
  {
    hide Inv, Advances, JobsInserted;
    var (u, q) := (Ask(t, n, edit, active), Api(n));
    Unchanged(t);
    if t.desired.Some? && q !in t.requests && Other(n) !in t.jobs {
      if active.None? {
        JobInserted(t.jobs, q, u.desired.value);
        InsertKeeps(t, u, q, u.requests[q], Some(Other(n)));
      } else if t.jobs[active.value].status.Queued? && !t.jobs[active.value].radarOnly {
        JobRefreshed(t.jobs, q, active.value, u.desired.value);
        InsertKeeps(t, u, q, u.requests[q], None);
      } else {
        NoJobInserted(t.jobs, q);
        InsertKeeps(t, u, q, u.requests[q], None);
      }
    }
  }

  lemma DeleteKeeps(t: Title)
    requires Inv(t)
    ensures Inv(Delete(t)) && Advances(t, Delete(t))
  {
  }

  lemma AcceptKeeps(t: Title, c: CampaignId, target: Target)
    requires Inv(t)
    ensures Inv(Step(t, Accept(c, target))) && Advances(t, Step(t, Accept(c, target)))
  {
    hide OneActive;
    var u := Step(t, Accept(c, target));
    if u != t {
      assert ForCampaign(c) !in t.requests;
      forall d | d in u.targets ensures TargetOk(u.requests, u.clock, d, u.targets[d]) {
        if d != c { assert TargetOk(t.requests, t.clock, d, t.targets[d]); }
      }
      assert forall k | k in u.jobs :: JobOk(t, k, t.jobs[k]) ==> JobOk(u, k, u.jobs[k]);
    }
  }

  lemma PlanRadarKeeps(t: Title, o: RadarId, apply: bool)
    requires Inv(t)
    ensures Inv(Step(t, PlanRadar(o, apply))) && Advances(t, Step(t, PlanRadar(o, apply)))
  {
    hide OneActive, RequestOk, TargetOk;
    var u := Step(t, PlanRadar(o, apply));
    forall k | k in u.jobs ensures JobOk(u, k, u.jobs[k]) { assert JobOk(t, k, t.jobs[k]); }
  }

  lemma LaterIsOk(t: Title, u: Title)
    requires u == t.(clock := u.clock) && t.clock <= u.clock
    ensures forall k, job | JobOk(t, k, job) :: JobOk(u, k, job)
    ensures forall r | RequestOk(t.jobs, t.clock, r) :: RequestOk(t.jobs, u.clock, r)
    ensures forall c, target | TargetOk(t.requests, t.clock, c, target) :: TargetOk(t.requests, u.clock, c, target)
  {
  }

  lemma TickKeeps(t: Title, to: int)
    requires Inv(t)
    ensures Inv(Step(t, Tick(to))) && Advances(t, Step(t, Tick(to)))
  {
    hide OneActive, JobOk, RequestOk, TargetOk;
    LaterIsOk(t, Step(t, Tick(to)));
  }

  lemma AdvancesComposes(t: Title, u: Title, v: Title)
    requires Advances(t, u) && Advances(u, v)
    ensures Advances(t, v)
  {
  }

  lemma StepKeeps(t: Title, e: Event)
    requires Inv(t)
    ensures Inv(Step(t, e)) && Advances(t, Step(t, e))
  {
    hide Inv, Advances, Claim, Requeue, Supersede, Next, End, Expand, Ask, Release, Delete;
    Unchanged(t);
    match e
    case Accept(c, target) => AcceptKeeps(t, c, target);
    case ExpandTarget(c, active) => if ActiveRow(t, active) { ExpandKeeps(t, c, active); }
    case ClaimJob(j, supported) => ClaimKeeps(t, j, supported);
    case FinishAttempt(j, n, ok, supported, pick) =>
      if Owned(t, j, n) && OldestIntent(End(t, j, n, ok), pick) {
        EndKeeps(t, j, n, ok);
        NextKeeps(End(t, j, n, ok), supported, None, pick);
        AdvancesComposes(t, End(t, j, n, ok), Next(End(t, j, n, ok), supported, None, pick).value);
      }
    case RequeueAttempt(j, n) => RequeueKeeps(t, j, n);
    case SupersedeAttempt(j, n) => SupersedeKeeps(t, j, n);
    case ScanIntents(supported, active, pick) =>
      if ActiveRow(t, active) && OldestIntent(t, pick) { NextKeeps(t, supported, active, pick); }
    case PlanRadar(o, apply) => PlanRadarKeeps(t, o, apply);
    case Promote(version, eligible) => ReleaseKeeps(t, version, eligible);
    case AskApi(n, edit, active) => if ActiveRow(t, active) { AskKeeps(t, n, edit, active); }
    case DeleteTitle => DeleteKeeps(t);
    case Tick(to) => TickKeeps(t, to);
  }

  // ---------------------------------------------------------------- whole runs

  lemma {:induction false} RunKeeps(t: Title, es: seq<Event>)
    requires Inv(t)
    ensures Inv(Run(t, es)) && Advances(t, Run(t, es))
    decreases es
  {
    hide Inv, Step, Advances;
    if es == [] {
      Unchanged(t);
    } else {
      var u := Step(t, es[0]);
      StepKeeps(t, es[0]);
      RunKeeps(u, es[1..]);
      AdvancesComposes(t, u, Run(u, es[1..]));
    }
  }

  lemma FreshIsOk(desired: Desired, clock: int)
    ensures Inv(Fresh(desired, clock))
  {
  }

  /** In every reachable state the title has at most one active job; a target that is pending or skipped has
  no request, any other has exactly its own, and it has ended exactly when that request is fulfilled. */
  lemma NothingIsLostOrDoubled(desired: Desired, clock: int, es: seq<Event>)
    ensures var t := Run(Fresh(desired, clock), es);
            && (forall j, k | j in t.jobs && k in t.jobs && Active(t.jobs[j]) && Active(t.jobs[k]) :: j == k)
            && (t.desired.Some? ==> forall c | c in t.targets ::
                  && (ForCampaign(c) in t.requests <==>
                        !t.targets[c].status.TargetPending? && !t.targets[c].status.Skipped?)
                  && (t.targets[c].status.TargetSucceeded? || t.targets[c].status.TargetFailed? <==>
                        ForCampaign(c) in t.requests && t.requests[ForCampaign(c)].status.Fulfilled?))
  {
    FreshIsOk(desired, clock);
    RunKeeps(Fresh(desired, clock), es);
    var t := Run(Fresh(desired, clock), es);
    if t.desired.Some? {
      forall c | c in t.targets ensures TargetOk(t.requests, t.clock, c, t.targets[c]) {
      }
    }
  }

  /** A request rides only on an attempt that started at or after its acceptance: the running one while it
  is assigned, and the one that fulfilled it, whose job has ended. */
  lemma ServedAfterAcceptance(desired: Desired, clock: int, es: seq<Event>, q: RequestId)
    ensures var t := Run(Fresh(desired, clock), es);
            q in t.requests ==>
              var r := t.requests[q];
              && (r.status.Assigned? ==> r.job.Some? && r.job.value in t.jobs && t.jobs[r.job.value].status.Running?
                                         && r.attempt == Some(t.jobs[r.job.value].attempts)
                                         && t.jobs[r.job.value].started.Some?
                                              && r.accepted <= t.jobs[r.job.value].started.value)
              && (r.status.Fulfilled? ==> r.job.Some? && r.job.value in t.jobs && !Active(t.jobs[r.job.value])
                                          && r.served.Some? && r.accepted <= r.served.value)
  {
    FreshIsOk(desired, clock);
    RunKeeps(Fresh(desired, clock), es);
    var t := Run(Fresh(desired, clock), es);
    if q in t.requests { assert RequestOk(t.jobs, t.clock, t.requests[q]); }
  }

  /** A target leaves `pending` once and ends once; what was asked for it never changes, and a fulfilled
  request stays as it is. */
  lemma TargetsOnlyAdvance(desired: Desired, clock: int, es: seq<Event>, more: seq<Event>)
    ensures var t := Run(Fresh(desired, clock), es);
            Advances(t, Run(t, more))
  {
    FreshIsOk(desired, clock);
    RunKeeps(Fresh(desired, clock), es);
    RunKeeps(Run(Fresh(desired, clock), es), more);
  }

  // ---------------------------------------------------------------- one expansion

  /** Where an expanded request may be. */
  predicate OnQueuedJob(t: Title, r: Request) {
    && r.status.Pending? && r.job.Some? && r.job.value in t.jobs && t.desired.Some?
    && var job := t.jobs[r.job.value];
       job.status.Queued? && !job.radarOnly && job.version == t.desired.value.version
           && job.revision == t.desired.value.revision
  }

  predicate OnRunningAttempt(t: Title, r: Request) {
    && r.status.Assigned? && r.job.Some? && r.job.value in t.jobs
    && var job := t.jobs[r.job.value];
       job.status.Running? && job.version == r.version && r.attempt == Some(job.attempts)
       && job.started.Some? && r.accepted <= job.started.value
  }

  predicate Reserved(t: Title, r: Request) {
    r.status.Pending? && r.job.None? && t.pendingWork
  }

  /** Expanding a valid pending target of a live title always succeeds. Its request is then on a queued job
  of the desired version, on a running attempt that can still serve it, or reserved for the next job; it
  asks for what the target asked for, and no other target or request changes. */
  lemma ExpansionPlacesTheRequest(t: Title, c: CampaignId, active: Option<JobId>)
    requires Inv(t) && ActiveRow(t, active) && t.desired.Some?
    requires c in t.targets && t.targets[c].status.TargetPending? && IsValidTarget(t.targets[c])
    ensures Expand(t, c, active).Success? && Expand(t, c, active).value.1
    ensures var u := Expand(t, c, active).value.0;
            && ForCampaign(c) !in t.requests && ForCampaign(c) in u.requests
            && u.targets == t.targets[c := t.targets[c].(status := Expanded)]
            && u.requests == t.requests[ForCampaign(c) := u.requests[ForCampaign(c)]]
            && var (r, target) := (u.requests[ForCampaign(c)], t.targets[c]);
               && r.revision == target.revision && r.version == target.version && r.accepted == target.accepted
               && (OnQueuedJob(u, r) || OnRunningAttempt(u, r) || Reserved(u, r))
               && (OnRunningAttempt(u, r) <==>
                     active.Some? && t.jobs[active.value].status.Running? && !t.jobs[active.value].radarOnly
                     && t.jobs[active.value].version == target.version
                     && t.jobs[active.value].started.Some? && target.accepted <= t.jobs[active.value].started.value)
  {
    hide Inv;
    IdsAreNew(t, c);
    DecideSucceeds(t, active, t.targets[c]);
    hide IsValidTarget, TargetOk, RequiresUniformVersion;
  }

  /** The only refusal is a target that breaks its campaign's rules, and then nothing changes; in particular
  no id is ever inserted twice. */
  lemma ExpansionFailsOnlyOnBadTargets(t: Title, c: CampaignId, active: Option<JobId>)
    requires Inv(t) && ActiveRow(t, active)
    ensures Expand(t, c, active).Failure? <==>
              c in t.targets && t.targets[c].status.TargetPending? && !IsValidTarget(t.targets[c])
    ensures Expand(t, c, active).Failure? ==> Expand(t, c, active).error == InvalidRecordValue
    ensures Expand(t, c, active).Success? ==>
              (Expand(t, c, active).value.1 <==> c in t.targets && t.targets[c].status.TargetPending?)
    ensures Expand(t, c, active).Success? && !Expand(t, c, active).value.1 ==> Expand(t, c, active).value.0 == t
  {
    hide Inv, Materialize, IsValidTarget;
    if c in t.targets && t.targets[c].status.TargetPending? && t.desired.Some? {
      MaterializeKeeps(t, c, active);
    }
  }

  // ---------------------------------------------------------------- after an attempt

  function Intents(t: Title): set<Intent> {
    (set q | q in t.requests && t.requests[q].status.Pending? :: RequestIntent(q))
    + (set o | o in t.radar && t.radar[o].waiting :: RadarIntent(o))
  }

  lemma {:induction false} Earliest(t: Title, among: set<Intent>) returns (first: Intent)
    requires among != {} && forall i | i in among :: IsIntent(t, i)
    ensures first in among && forall i | i in among :: AcceptedAt(t, first) <= AcceptedAt(t, i)
    decreases among
  {
    var i :| i in among;
    var rest := among - {i};
    if rest == {} {
      assert among == {i};
      first := i;
    } else {
      var best := Earliest(t, rest);
      first := if AcceptedAt(t, i) < AcceptedAt(t, best) then i else best;
      assert forall k | k in among :: k == i || k in rest;
    }
  }

  /** The query for the oldest intent always has an answer. */
  lemma OldestIntentExists(t: Title) returns (pick: Option<Intent>)
    ensures OldestIntent(t, pick)
  {
    forall i | IsIntent(t, i) ensures i in Intents(t) {
    }
    if Intents(t) == {} {
      pick := None;
    } else {
      var first := Earliest(t, Intents(t));
      pick := Some(first);
    }
  }

  /** When an attempt ends under the desired version, nothing that waits is left without a job: as long as a
  request is pending there is an active job for the title again. */
  lemma EndLeavesNothingBehind(t: Title, j: JobId, n: nat, ok: bool, pick: Option<Intent>)
    requires Inv(t) && Owned(t, j, n) && OldestIntent(End(t, j, n, ok), pick)
    ensures var done := Finish(t, j, n, ok, t.desired.value.version, pick);
            && done.Success?
            && (forall q | q in t.requests && AssignedTo(t.requests[q], j, n) ::
                 done.value.requests[q].status.Fulfilled?)
            && ((exists q :: q in done.value.requests && done.value.requests[q].status.Pending?) ==>
                  exists k :: k in done.value.jobs && done.value.jobs[k].status.Queued?
                      && done.value.jobs[k].version == t.desired.value.version)
  {
    hide OneActive, JobsOk, TargetsOk;
    var u := End(t, j, n, ok);
    EndKeeps(t, j, n, ok);
    NextKeeps(u, t.desired.value.version, None, pick);
    var v := Next(u, t.desired.value.version, None, pick).value;
    forall q | q in t.requests && AssignedTo(t.requests[q], j, n) ensures v.requests[q].status.Fulfilled? {
      assert RequestOk(t.jobs, t.clock, t.requests[q]);
      assert u.requests[q].status.Fulfilled?;
    }
    forall q | q in u.requests && u.requests[q].status.Pending? ensures IsIntent(u, RequestIntent(q)) {
    }
    if pick.Some? {
      var id := match pick.value case RadarIntent(o) => ForRadar(o) case RequestIntent(r) => FollowUp(r);
      assert id in v.jobs && v.jobs[id].status.Queued?;
    }
  }

  /** A scan by a worker of the desired version makes progress: whenever something waits and no job is active,
  the oldest intent gets a new queued job of what the title wants, and if that intent is a request, the job takes
  every waiting request. */
  lemma ScanMakesProgress(t: Title, pick: Option<Intent>)
    requires Inv(t) && t.desired.Some? && ActiveRow(t, None) && OldestIntent(t, pick) && Intents(t) != {}
    ensures var u := Step(t, ScanIntents(t.desired.value.version, None, pick));
            && pick.Some? && IsIntent(t, pick.value) && !(pick.value.RadarIntent? && IsIntent(u, pick.value))
            && var k := (match pick.value case RadarIntent(o) => ForRadar(o) case RequestIntent(r) => FollowUp(r));
               && k !in t.jobs && k in u.jobs && u.jobs.Keys == t.jobs.Keys + {k} && u.jobs[k].status.Queued?
               && u.jobs[k].version == t.desired.value.version && u.jobs[k].revision == t.desired.value.revision
               && (pick.value.RequestIntent? ==>
                     forall q | q in u.requests && u.requests[q].status.Pending? :: u.requests[q].job == Some(k))
  {
    assert pick.Some? by {
      var i :| i in Intents(t);
      assert IsIntent(t, i);
    }
    NextIdIsNew(t, None, pick.value);
    hide Inv;
  }

  // ---------------------------------------------------------------- a requeue across a release

  /** Every queued job has the version its title wants. */
  predicate QueuedIsCurrent(t: Title) {
    t.desired.Some? ==> forall j | j in t.jobs && t.jobs[j].status.Queued? ::
        t.jobs[j].version == t.desired.value.version
  }

  lemma ExpandStaysCurrent(t: Title, c: CampaignId, active: Option<JobId>)
    requires QueuedIsCurrent(t) && ActiveRow(t, active)
    ensures QueuedIsCurrent(Step(t, ExpandTarget(c, active)))
  {
    hide IsValidTarget;
  }

  lemma NextStaysCurrent(t: Title, supported: Version, active: Option<JobId>, pick: Option<Intent>)
    requires QueuedIsCurrent(t)
    ensures QueuedIsCurrent(OrUnchanged(t, Next(t, supported, active, pick)))
  {
  }

  lemma EndStaysCurrent(t: Title, j: JobId, n: nat, ok: bool)
    requires QueuedIsCurrent(t) && Owned(t, j, n)
    ensures QueuedIsCurrent(End(t, j, n, ok))
  {
  }

  lemma AskStaysCurrent(t: Title, n: int, edit: bool, active: Option<JobId>)
    requires QueuedIsCurrent(t) && ActiveRow(t, active)
    ensures QueuedIsCurrent(Ask(t, n, edit, active))
  {
  }

  lemma RequeueStaysCurrent(t: Title, j: JobId, n: nat)
    requires QueuedIsCurrent(t)
    ensures QueuedIsCurrent(Requeue(t, j, n)) <==> !(Owned(t, j, n) && t.jobs[j].version != t.desired.value.version)
    ensures QueuedIsCurrent(Supersede(t, j, n))
  {
    if Owned(t, j, n) {
      var u := Requeue(t, j, n);
      assert j in u.jobs && u.jobs[j].status.Queued? && u.jobs[j].version == t.jobs[j].version;
    }
  }

  /** One transaction only can leave a queued job of another version behind: putting an attempt back that
  was overtaken by a release. */
  lemma OnlyARequeueLeavesAnOldVersion(t: Title, e: Event)
    requires Inv(t) && QueuedIsCurrent(t)
    ensures QueuedIsCurrent(Step(t, e)) <==>
              !(e.RequeueAttempt? && Owned(t, e.job, e.attempt) && t.jobs[e.job].version != t.desired.value.version)
  {
    hide Inv, Expand, Next, End, Ask, Requeue, Supersede, ActiveRow;
    match e
    case ExpandTarget(c, active) => if ActiveRow(t, active) { ExpandStaysCurrent(t, c, active); }
    case FinishAttempt(j, n, ok, supported, pick) =>
      if Owned(t, j, n) {
        EndStaysCurrent(t, j, n, ok);
        NextStaysCurrent(End(t, j, n, ok), supported, None, pick);
      }
    case ScanIntents(supported, active, pick) => NextStaysCurrent(t, supported, active, pick);
    case RequeueAttempt(j, n) => RequeueStaysCurrent(t, j, n);
    case SupersedeAttempt(j, n) => RequeueStaysCurrent(t, j, n);
    case AskApi(n, edit, active) => if ActiveRow(t, active) { AskStaysCurrent(t, n, edit, active); }
    case _ =>
  }

  /** A queued job that a release has overtaken. */
  predicate Stranded(t: Title, j: JobId) {
    t.desired.Some? && j in t.jobs && t.jobs[j].status.Queued? && t.jobs[j].version != t.desired.value.version
  }

  lemma StrandedIsActive(t: Title, j: JobId, active: Option<JobId>)
    requires Inv(t) && Stranded(t, j)
    ensures ActiveRow(t, active) <==> active == Some(j)
    ensures forall k, n :: !Owned(t, k, n)
  {
    hide JobsOk, RequestsOk, TargetsOk;
  }

  lemma ActiveStops(t: Title, supported: Version, j: JobId, pick: Option<Intent>)
    ensures Next(t, supported, Some(j), pick) == Success(t)
  {
  }

  /** Such a job stops its title for workers: none of another version claims it, and none schedules anything
  beside it or ends anything. */
  lemma OldVersionBlocksWorkers(t: Title, j: JobId, e: Event)
    requires Inv(t) && Stranded(t, j)
    requires e.ClaimJob? || e.FinishAttempt? || e.RequeueAttempt? || e.SupersedeAttempt? || e.ScanIntents?
    requires e.ClaimJob? && e.job == j ==> e.supported != t.jobs[j].version
    ensures Step(t, e) == t
  {
    StrandedIsActive(t, j, if e.ClaimJob? then Some(e.job) else if e.ScanIntents? then e.active else None);
    if e.ScanIntents? {
      ActiveStops(t, e.supported, j, e.pick);
    }
    hide Inv, End, Next;
  }

  /** An expansion or a request that takes place while `j` is the active job, and the request it inserts. */
  predicate IsPlaced(t: Title, j: JobId, e: Event) {
    match e
    case ExpandTarget(c, active) =>
      active == Some(j) && c in t.targets && t.targets[c].status.TargetPending? && IsValidTarget(t.targets[c])
    case AskApi(n, _, active) => active == Some(j) && Api(n) !in t.requests && Other(n) !in t.jobs
    case _ => false
  }

  function PlacedId(e: Event): RequestId
    requires e.ExpandTarget? || e.AskApi?
  {
    if e.ExpandTarget? then ForCampaign(e.campaign) else Api(e.number)
  }

  /** What gets a stranded job out of that state. An ordinary job follows the next request; a `radar_prepare`
  job keeps its snapshot, so for it only the first three are left. */
  predicate Frees(t: Title, j: JobId, e: Event)
    requires j in t.jobs
  {
    || e.Promote?
    || e.DeleteTitle?
    || (e.ClaimJob? && e.job == j && e.supported == t.jobs[j].version)
    || (!t.jobs[j].radarOnly && IsPlaced(t, j, e))
  }

  /** An expansion or a request meets the stranded job: an ordinary one is brought up to date and takes the
  request, a `radar_prepare` one stays as it is and the request waits without a job. */
  lemma RequestMeetsStranded(t: Title, j: JobId, e: Event)
    requires Inv(t) && Stranded(t, j) && IsPlaced(t, j, e)
    ensures var (u, q) := (Step(t, e), PlacedId(e));
            && u.desired.Some? && u.desired.value.version == t.desired.value.version
            && q !in t.requests && q in u.requests && u.requests[q].status.Pending?
            && (if t.jobs[j].radarOnly then u.jobs == t.jobs && u.requests[q].job.None? && u.pendingWork
                else && j in u.jobs && u.jobs[j].status.Queued? && u.jobs[j].version == t.desired.value.version
                     && u.requests[q].job == Some(j))
  {
    StrandedIsActive(t, j, Some(j));
    if e.ExpandTarget? {
      IdsAreNew(t, e.campaign);
    }
    hide Inv, IsValidTarget;
  }

  lemma NothingIsPlaced(t: Title, j: JobId, e: Event)
    requires Inv(t) && Stranded(t, j) && (e.ExpandTarget? || e.AskApi?) && !IsPlaced(t, j, e)
    ensures Step(t, e) == t
  {
    StrandedIsActive(t, j, e.active);
    hide Inv, IsValidTarget, Materialize;
  }

  /** A stranded job leaves that state exactly by these events. */
  lemma StrandedUntilFreed(t: Title, j: JobId, e: Event)
    requires Inv(t) && Stranded(t, j)
    ensures !Stranded(Step(t, e), j) <==> Frees(t, j, e)
  {
    if IsPlaced(t, j, e) {
      hide Inv, Step, IsValidTarget;
      RequestMeetsStranded(t, j, e);
    } else if e.ExpandTarget? || e.AskApi? {
      hide Inv, Step, IsValidTarget;
      NothingIsPlaced(t, j, e);
    } else if !Frees(t, j, e)
        && (e.ClaimJob? || e.FinishAttempt? || e.RequeueAttempt? || e.SupersedeAttempt? || e.ScanIntents?) {
      hide Inv, Step;
      OldVersionBlocksWorkers(t, j, e);
    } else {
      hide Inv;
    }
  }

  /** Nothing moves: the jobs and all earlier requests stay as they are, new requests wait without a job, and
  no target ends. */
  ghost predicate StandsStill(t: Title, u: Title) {
    && t.desired.Some? && u.desired.Some? && u.desired.value.version == t.desired.value.version && u.jobs == t.jobs
    && (forall q | q in t.requests :: q in u.requests && u.requests[q] == t.requests[q])
    && (forall q | q in u.requests && q !in t.requests :: u.requests[q].status.Pending? && u.requests[q].job.None?)
    && (forall c | c in u.targets && HasEnded(u.targets[c]) :: c in t.targets && HasEnded(t.targets[c]))
  }

  predicate HasEnded(target: Target) { target.status.TargetSucceeded? || target.status.TargetFailed? }

  lemma RadarDefersExpansion(t: Title, j: JobId, c: CampaignId)
    requires Inv(t) && Stranded(t, j) && t.jobs[j].radarOnly && IsPlaced(t, j, ExpandTarget(c, Some(j)))
    ensures StandsStill(t, Step(t, ExpandTarget(c, Some(j))))
  {
    StrandedIsActive(t, j, Some(j));
    IdsAreNew(t, c);
    hide Inv, IsValidTarget;
    assert Materialize(t, c, t.desired.value, Some(j)).Success?;
  }

  lemma RadarDefersRequest(t: Title, j: JobId, n: int, edit: bool)
    requires Inv(t) && Stranded(t, j) && t.jobs[j].radarOnly && IsPlaced(t, j, AskApi(n, edit, Some(j)))
    ensures StandsStill(t, Step(t, AskApi(n, edit, Some(j))))
  {
    StrandedIsActive(t, j, Some(j));
    hide Inv;
  }

  lemma RadarStandsStill(t: Title, j: JobId, e: Event)
    requires Inv(t) && Stranded(t, j) && t.jobs[j].radarOnly && !Frees(t, j, e)
    ensures StandsStill(t, Step(t, e))
  {
    if IsPlaced(t, j, e) {
      hide Inv, Step, StandsStill, IsValidTarget;
      if e.ExpandTarget? {
        RadarDefersExpansion(t, j, e.campaign);
      } else {
        RadarDefersRequest(t, j, e.number, e.edit);
      }
    } else if e.ExpandTarget? || e.AskApi? {
      hide Inv, Step, IsValidTarget;
      NothingIsPlaced(t, j, e);
    } else if e.ClaimJob? || e.FinishAttempt? || e.RequeueAttempt? || e.SupersedeAttempt? || e.ScanIntents? {
      hide Inv, Step;
      OldVersionBlocksWorkers(t, j, e);
    } else {
      hide Inv;
    }
  }

  /** A `radar_prepare` job that a release has overtaken stops its title: until another promotion, the deletion of
  the title, or a claim by a worker of the old version, no request accepted meanwhile gets a job and no target
  ends, whatever else happens. */
  lemma {:induction false} StrandedRadarStopsTheTitle(t: Title, j: JobId, es: seq<Event>)
    requires Inv(t) && Stranded(t, j) && t.jobs[j].radarOnly
    requires forall e | e in es ::
               !e.Promote? && !e.DeleteTitle? && (e.ClaimJob? && e.job == j ==> e.supported != t.jobs[j].version)
    ensures StandsStill(t, Run(t, es)) && Stranded(Run(t, es), j)
    decreases es
  {
    hide Inv, Step;
    if es != [] {
      assert es[0] in es && forall e | e in es[1..] :: e in es;
      var u := Step(t, es[0]);
      RadarStandsStill(t, j, es[0]);
      StrandedUntilFreed(t, j, es[0]);
      StepKeeps(t, es[0]);
      StrandedRadarStopsTheTitle(u, j, es[1..]);
    }
  }

  lemma {:induction false} RunAppends(t: Title, es: seq<Event>, e: Event)
    ensures Run(t, es + [e]) == Step(Run(t, es), e)
    decreases es
  {
    if es == [] {
      assert ([] + [e])[1..] == [] && Run(Step(t, e), []) == Step(t, e);
      assert [] + [e] == [e];
    } else {
      assert (es + [e])[1..] == es[1..] + [e];
      RunAppends(Step(t, es[0]), es[1..], e);
    }
  }

  lemma NoEvents(t: Title)
    ensures Run(t, []) == t
  {
  }

  lemma RadarIsClaimed(v: Version, o: RadarId) returns (es: seq<Event>)
    ensures Run(Fresh(Desired(0, v), 0), es) == ClaimedRadar(v, o)
  {
    hide Run;
    var (start, j) := (Fresh(Desired(0, v), 0), ForRadar(o));
    NoEvents(start);
    RunAppends(start, [], PlanRadar(o, false));
    es := [] + [PlanRadar(o, false)];
    var planned := start.(radar := map[o := Radar(false, 0, true)]);
    assert Run(start, es) == planned;
    RunAppends(start, es, ScanIntents(v, None, Some(RadarIntent(o))));
    es := es + [ScanIntents(v, None, Some(RadarIntent(o)))];
    assert forall i | IsIntent(planned, i) :: i == RadarIntent(o);
    var scheduled := planned.(jobs := map[j := NewJob(Desired(0, v), true)], radar := map[o := Radar(false, 0, false)]);
    assert Run(start, es) == scheduled;
    RunAppends(start, es, ClaimJob(j, v));
    es := es + [ClaimJob(j, v)];
  }

  /** One radar preparation that is running. */
  function ClaimedRadar(v: Version, o: RadarId): Title {
    var job := NewJob(Desired(0, v), true).(status := Running, started := Some(0), attempts := 1);
    Fresh(Desired(0, v), 0).(jobs := map[ForRadar(o) := job], radar := map[o := Radar(false, 0, false)])
  }

  /** The state is reached: a preparation is planned, scheduled, claimed, overtaken by a release, and put back. */
  lemma RadarIsStranded(v: Version, w: Version, o: RadarId) returns (es: seq<Event>)
    requires v != w
    ensures var t := Run(Fresh(Desired(0, v), 0), es);
            Inv(t) && Stranded(t, ForRadar(o)) && t.jobs[ForRadar(o)].radarOnly && t.jobs[ForRadar(o)].version == v
  {
    hide Run;
    var start, claimed := Fresh(Desired(0, v), 0), ClaimedRadar(v, o);
    es := RadarIsClaimed(v, o);
    RunAppends(start, es, Promote(w, true));
    es := es + [Promote(w, true)];
    assert Run(start, es) == claimed.(desired := Some(Desired(0, w)), pendingWork := true);
    RunAppends(start, es, RequeueAttempt(ForRadar(o), 1));
    es := es + [RequeueAttempt(ForRadar(o), 1)];
    FreshIsOk(Desired(0, v), 0);
    RunKeeps(start, es);
  }
}
