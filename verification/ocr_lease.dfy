/** The fenced OCR job lease: claim, heartbeat, finish, requeue, recovery and reaping of one job table
by any number of workers.

Every transaction is one function on the row of its job. A run is any list of such transactions, each
of which may have been rolled back, committed, or committed without the client learning of it. */
module OcrLease {
  import opened Wrappers

  type JobId = string

  const I32_MAX: int := 0x7fff_ffff
  const I64_MAX: int := 0x7fff_ffff_ffff_ffff

  datatype FailureCode =
    | TempImageMissing | InvalidImage | UnsupportedImageFormat | DecodeFailed | CategoryUndetected
    | LayoutUnsupported | OcrTimeout | OcrEngineUnavailable | ParserFailed | QueueFailure

  datatype Status = Queued | Running | Succeeded | Failed(code: FailureCode) | Cancelled

  /** The four lease columns, which every statement sets or clears together. */
  datatype Lease = Lease(owner: string, attemptId: string, token: string, expiresAt: int)

  datatype Job = Job(
    status: Status, draftId: string, lease: Option<Lease>, fencingToken: int, attemptCount: int,
    failureRetries: int, leaseRecoveries: int, availableAt: int, createdAt: int, startedAt: Option<int>)

  /** What a worker remembers of its claim. */
  datatype Claim = Claim(
    jobId: JobId, draftId: string, worker: string, attemptId: string, leaseToken: string,
    attemptCount: int, fencingToken: int)

  datatype Draft = Draft(draftId: string, payload: string, warnings: nat)

  /** A job with its draft. The last three fields are bookkeeping of the model, not columns: the claims
  committed so far, the token of the claim that wrote the draft, and how the finished claims ended. */
  datatype Row = Row(job: Job, draft: Option<Draft>, claims: set<Claim>, writer: Option<int>, ended: Ended)

  datatype Ended = Ended(interruptions: nat, finals: nat)

  type Table = map<JobId, Row>

  /** Successive readings of the database clock; nothing forces them to increase. */
  type Clock = nat -> int

  datatype Outcome = Done | OwnerLost | NumericBound | InvalidCompletion | InvalidState

  datatype ClaimResult =
    | Claimed(claim: Claim) | MissingOrTerminal | AlreadyRunning | NotYetAvailable | InvalidInput
    | Refused(error: Outcome)

  /** What the rows beside the job say about it: submission membership, then snapshot and source image. */
  datatype Candidate = Ungrouped | InvalidContract | Valid

  /** `maximum_failure_retries` and `maximum_lease_recoveries`, which every worker has from its configuration. */
  datatype Limits = Limits(failureRetries: nat, leaseRecoveries: nat)

  predicate Within(configured: Limits, most: Limits) {
    configured.failureRetries <= most.failureRetries && configured.leaseRecoveries <= most.leaseRecoveries
  }

  datatype LeaseIdentity = LeaseIdentity(worker: string, attemptId: string, token: string, duration: int)

  datatype ExpiredLease = ExpiredLease(owner: string, attemptId: string, fencingToken: int)

  predicate Terminal(status: Status) { status.Succeeded? || status.Failed? || status.Cancelled? }

  /** The guard of every statement a claim holder sends. */
  predicate Owns(job: Job, c: Claim) {
    && job.status.Running?
    && job.lease.Some?
    && job.lease.value.owner == c.worker
    && job.lease.value.attemptId == c.attemptId
    && job.lease.value.token == c.leaseToken
    && job.fencingToken == c.fencingToken
  }

  predicate OwnsUnexpired(job: Job, c: Claim, now: int) {
    Owns(job, c) && job.lease.value.expiresAt > now
  }

  // ---------------------------------------------------------------- transactions on one row

  function Finish(row: Row, status: Status): Row {
    var final := if row.job.status.Running? then 1 else 0;
    row.(job := row.job.(status := status, lease := None),
         ended := row.ended.(finals := row.ended.finals + final))
  }

  function Release(job: Job, availableAt: int): Job {
    job.(status := Queued, lease := None, availableAt := availableAt, startedAt := None)
  }

  /** `recover_expired_ocr_holder`; the clock is read for the check, the new due time and the guard. */
  function Recover(row: Row, holder: ExpiredLease, maximum: int, clock: Clock): Result<Row, Outcome> {
    var job := row.job;
    var matches := && job.lease.Some? && job.lease.value.owner == holder.owner
                   && job.lease.value.attemptId == holder.attemptId
                   && job.fencingToken == holder.fencingToken;
    if job.status.Running? then
      if !matches || job.lease.value.expiresAt > clock(0) then Success(row)
      else if job.leaseRecoveries >= maximum then Success(Finish(row, Failed(OcrTimeout)))
      else if job.lease.value.expiresAt > clock(2) then Failure(OwnerLost)
      else Success(row.(job := Release(job, clock(1)).(leaseRecoveries := job.leaseRecoveries + 1)))
    else if matches then Success(row.(job := job.(lease := None)))
    else Success(row)
  }

  /** The recovery that a claim performs first, on the lease it finds expired in the locked row. */
  function RecoverForClaim(row: Row, maximum: int, clock: Clock): Result<Row, Outcome> {
    var job := row.job;
    if job.status.Running? && job.lease.Some? && job.lease.value.expiresAt <= clock(3) then
      Recover(row, ExpiredLease(job.lease.value.owner, job.lease.value.attemptId, job.fencingToken),
              maximum, clock)
    else Success(row)
  }

  function Acquire(id: JobId, row: Row, who: LeaseIdentity, clock: Clock): (Row, ClaimResult) {
    var job := row.job;
    if job.fencingToken >= I64_MAX || job.attemptCount >= I32_MAX then (row, Refused(NumericBound))
    else if job.availableAt > clock(5) then (row, Refused(OwnerLost))
    else
      var c := Claim(id, job.draftId, who.worker, who.attemptId, who.token, job.attemptCount + 1,
                     job.fencingToken + 1);
      var lease := Lease(who.worker, who.attemptId, who.token, clock(6) + who.duration);
      var next := job.(status := Running, lease := Some(lease), fencingToken := c.fencingToken,
                       attemptCount := c.attemptCount, startedAt := Some(clock(7)));
      (row.(job := next, claims := row.claims + {c}), Claimed(c))
  }

  /** `claim_job`: a refusal that is an error undoes the recovery too; every other answer keeps it. */
  function ClaimRow(id: JobId, row: Row, who: LeaseIdentity, candidate: Candidate, maximum: int, clock: Clock)
    : (Row, ClaimResult)
  {
    match RecoverForClaim(row, maximum, clock)
    case Failure(error) => (row, Refused(error))
    case Success(found) =>
      if Terminal(found.job.status) then (found, MissingOrTerminal)
      else if candidate.Ungrouped? then (row, Refused(InvalidState))
      else if found.job.status.Running? then (found, AlreadyRunning)
      else if found.job.availableAt > clock(4) then (found, NotYetAvailable)
      else if candidate.InvalidContract? then (Finish(found, Failed(QueueFailure)), InvalidInput)
      else
        var (next, result) := Acquire(id, found, who, clock);
        (if result.Claimed? then next else row, result)
  }

  function HeartbeatRow(row: Row, c: Claim, duration: int, clock: Clock): (Row, Outcome) {
    if OwnsUnexpired(row.job, c, clock(0)) then
      (row.(job := row.job.(lease := Some(row.job.lease.value.(expiresAt := clock(1) + duration)))), Done)
    else (row, OwnerLost)
  }

  function SucceedRow(row: Row, c: Claim, valid: bool, draft: Draft, clock: Clock): (Row, Outcome) {
    if !valid then (row, InvalidCompletion)
    else if OwnsUnexpired(row.job, c, clock(0)) then
      (Finish(row, Succeeded).(draft := Some(draft.(draftId := c.draftId)), writer := Some(c.fencingToken)), Done)
    else (row, OwnerLost)
  }

  function FailRow(row: Row, c: Claim, code: FailureCode, milliseconds: int, clock: Clock): (Row, Outcome) {
    if milliseconds < 0 then (row, NumericBound)
    else if OwnsUnexpired(row.job, c, clock(0)) then (Finish(row, Failed(code)), Done)
    else (row, OwnerLost)
  }

  /** `requeue_transaction`: a failed attempt spends a retry, an interrupted one spends nothing. */
  function RequeueRow(row: Row, c: Claim, failed: bool, delay: int, maximum: int, clock: Clock): (Row, Outcome) {
    if !OwnsUnexpired(row.job, c, clock(0)) then (row, OwnerLost)
    else if failed && row.job.failureRetries >= maximum then
      (Finish(row, Failed(OcrEngineUnavailable)), Done)
    else if failed then
      (row.(job := Release(row.job, clock(1) + delay).(failureRetries := row.job.failureRetries + 1)), Done)
    else
      (row.(job := Release(row.job, clock(1)),
            ended := row.ended.(interruptions := row.ended.interruptions + 1)), Done)
  }

  /** `reap_stale`: work that nobody holds any more and that is older than the bound. */
  function ReapRow(row: Row, stale: int, clock: Clock): Row {
    var job := row.job;
    var since := if job.startedAt.Some? then job.startedAt.value else job.createdAt;
    if && (job.status.Queued? || job.status.Running?) && since < clock(0) - stale
       && (job.lease.None? || job.lease.value.expiresAt <= clock(1))
    then Finish(row, Failed(OcrTimeout)) else row
  }

  /** The API cancels a job only while it is queued. */
  function CancelRow(row: Row): Row {
    if row.job.status.Queued? then Finish(row, Cancelled) else row
  }

  function Submitted(draftId: string, now: int): Row {
    Row(Job(Queued, draftId, None, 0, 0, 0, 0, now, now, None), None, {}, None, Ended(0, 0))
  }

  // ---------------------------------------------------------------- runs

  /** Rolled back, or committed with the reply seen by the client or lost. */
  datatype Fate = RolledBack | CommittedSeen | CommittedUnseen

  datatype Action =
    | Submit(draftId: string, now: int)
    | ClaimJob(who: LeaseIdentity, candidate: Candidate)
    | Heartbeat(claim: Claim, duration: int)
    | Succeed(claim: Claim, valid: bool, draft: Draft)
    | Fail(claim: Claim, code: FailureCode, milliseconds: int)
    | Requeue(claim: Claim, failed: bool, delay: int)
    | RecoverOrphan(holder: ExpiredLease)
    | Reap(stale: int)
    | Cancel

  /** One transaction on the row `id`, by a worker with the configured limits. */
  datatype Event = Event(id: JobId, action: Action, configured: Limits, clock: Clock, fate: Fate)

  predicate FromHolder(a: Action) { a.Heartbeat? || a.Succeed? || a.Fail? || a.Requeue? }

  /** The row and the answer of the transaction `a` on an existing row. */
  function ActOnRow(id: JobId, row: Row, a: Action, configured: Limits, clock: Clock): (Row, Outcome) {
    match a
    case Submit(_, _) => (row, InvalidState)
    case ClaimJob(who, candidate) =>
      var (next, result) := ClaimRow(id, row, who, candidate, configured.leaseRecoveries, clock);
      (next, if result.Refused? then result.error else Done)
    case Heartbeat(c, duration) => HeartbeatRow(row, c, duration, clock)
    case Succeed(c, valid, draft) => SucceedRow(row, c, valid, draft, clock)
    case Fail(c, code, milliseconds) => FailRow(row, c, code, milliseconds, clock)
    case Requeue(c, failed, delay) => RequeueRow(row, c, failed, delay, configured.failureRetries, clock)
    case RecoverOrphan(holder) =>
      (match Recover(row, holder, configured.leaseRecoveries, clock)
       case Success(next) => (next, Done)
       case Failure(error) => (row, error))
    case Reap(stale) => (ReapRow(row, stale, clock), Done)
    case Cancel => (CancelRow(row), Done)
  }

  /** Holders act on claims that were committed for this very row; claims cannot be made up. */
  predicate Possible(id: JobId, row: Row, a: Action) {
    FromHolder(a) ==> a.claim in row.claims
  }

  /** No worker is configured with more than `most`. */
  function Step(most: Limits, t: Table, e: Event): Table {
    if e.fate.RolledBack? then t
    else if e.id !in t then
      if e.action.Submit? then t[e.id := Submitted(e.action.draftId, e.action.now)] else t
    else if Possible(e.id, t[e.id], e.action) && Within(e.configured, most) then
      t[e.id := ActOnRow(e.id, t[e.id], e.action, e.configured, e.clock).0]
    else t
  }

  function Run(most: Limits, t: Table, es: seq<Event>): Table
    decreases es
  {
    if es == [] then t else Run(most, Step(most, t, es[0]), es[1..])
  }

  // ---------------------------------------------------------------- the invariant

  /** The claims of a row have the tokens from one to the row's, and a running job has a holder among them. */
  ghost predicate ClaimsOk(id: JobId, row: Row) {
    var job := row.job;
    && (job.status.Running? ==> exists c :: c in row.claims && Owns(job, c))
    && (forall c | c in row.claims ::
         c.jobId == id && 0 < c.fencingToken <= job.fencingToken && c.draftId == job.draftId)
    && (forall c, d | c in row.claims && d in row.claims && c.fencingToken == d.fencingToken :: c == d)
    && |row.claims| == job.fencingToken
  }

  ghost predicate RowOk(most: Limits, id: JobId, row: Row) {
    var job := row.job;
    && (job.status.Running? <==> job.lease.Some?)
    && ClaimsOk(id, row)
    && (row.draft.Some? <==> job.status.Succeeded?)
    && (row.draft.Some? ==> row.draft.value.draftId == job.draftId && row.writer == Some(job.fencingToken))
    && job.attemptCount == job.fencingToken
    && 0 <= job.failureRetries <= most.failureRetries
    && 0 <= job.leaseRecoveries <= most.leaseRecoveries
    && row.ended.finals <= (if Terminal(job.status) then 1 else 0)
    && (job.status.Succeeded? ==> row.ended.finals == 1)
    && job.attemptCount == job.failureRetries + job.leaseRecoveries + row.ended.interruptions + row.ended.finals
                           + (if job.status.Running? then 1 else 0)
  }

  ghost predicate Inv(most: Limits, t: Table) {
    forall id | id in t :: RowOk(most, id, t[id])
  }

  // ---------------------------------------------------------------- one transaction

  /** What one transaction may do to a row: keep its claims and its token, and then at most the present
  holder still holds it, or add one claim that takes the row with the next token. */
  ghost predicate Advances(row: Row, next: Row) {
    Kept(row, next) || exists c :: Takes(row, next, c)
  }

  ghost predicate Kept(row: Row, next: Row) {
    && next.claims == row.claims && next.job.fencingToken == row.job.fencingToken
    && forall c :: Owns(next.job, c) ==> Owns(row.job, c)
  }

  predicate Takes(row: Row, next: Row, c: Claim) {
    && c !in row.claims && next.claims == row.claims + {c}
    && next.job.fencingToken == row.job.fencingToken + 1 == c.fencingToken
    && Owns(next.job, c)
  }

  lemma AcquireTakes(id: JobId, row: Row, who: LeaseIdentity, clock: Clock)
    requires ClaimsOk(id, row)
    ensures var (next, result) := Acquire(id, row, who, clock);
            result.Claimed? ==> ClaimsOk(id, next) && Takes(row, next, result.claim)
  {
    var (next, result) := Acquire(id, row, who, clock);
    if result.Claimed? {
      assert next.claims == row.claims + {result.claim} && result.claim !in row.claims;
    }
  }

  /** A new lease comes with a token above every earlier claim, so exactly one claim holds it. */
  lemma AcquireKeeps(most: Limits, id: JobId, row: Row, who: LeaseIdentity, clock: Clock)
    requires RowOk(most, id, row) && row.job.status.Queued?
    ensures var (next, result) := Acquire(id, row, who, clock);
            result.Claimed? ==> RowOk(most, id, next) && Takes(row, next, result.claim)
  {
    AcquireTakes(id, row, who, clock);
    hide ClaimsOk, Takes;
  }

  lemma RecoverKeeps(most: Limits, id: JobId, row: Row, holder: ExpiredLease, configured: Limits, clock: Clock)
    requires RowOk(most, id, row) && Within(configured, most)
    ensures var r := Recover(row, holder, configured.leaseRecoveries, clock);
            r.Success? ==> RowOk(most, id, r.value) && Kept(row, r.value)
  {
  }

  lemma RecoverForClaimKeeps(most: Limits, id: JobId, row: Row, configured: Limits, clock: Clock)
    requires RowOk(most, id, row) && Within(configured, most)
    ensures var r := RecoverForClaim(row, configured.leaseRecoveries, clock);
            r.Success? ==> RowOk(most, id, r.value) && Kept(row, r.value)
  {
    hide Recover;
    var job := row.job;
    if job.status.Running? && job.lease.Some? {
      RecoverKeeps(most, id, row, ExpiredLease(job.lease.value.owner, job.lease.value.attemptId, job.fencingToken),
                   configured, clock);
    }
  }

  lemma KeptThenKept(row: Row, found: Row, next: Row)
    requires Kept(row, found) && Kept(found, next)
    ensures Kept(row, next)
  {
  }

  lemma KeptThenTakes(row: Row, found: Row, next: Row, c: Claim)
    requires Kept(row, found) && Takes(found, next, c)
    ensures Takes(row, next, c)
  {
  }

  lemma ClaimKeeps(most: Limits, id: JobId, row: Row, who: LeaseIdentity, candidate: Candidate, configured: Limits,
      clock: Clock)
    requires RowOk(most, id, row) && Within(configured, most)
    ensures var (next, result) := ClaimRow(id, row, who, candidate, configured.leaseRecoveries, clock);
            && RowOk(most, id, next)
            && (if result.Claimed? then Takes(row, next, result.claim) else Kept(row, next))
  {
    var found := RecoverForClaim(row, configured.leaseRecoveries, clock);
    RecoverForClaimKeeps(most, id, row, configured, clock);
    assert Kept(row, row);
    hide RecoverForClaim, Acquire, Finish, Kept, Takes;
    if found.Success? && !Terminal(found.value.job.status) {
      var (next, result) := Acquire(id, found.value, who, clock);
      FinishKeeps(most, id, found.value, Failed(QueueFailure));
      KeptThenKept(row, found.value, Finish(found.value, Failed(QueueFailure)));
      if found.value.job.status.Queued? {
        AcquireKeeps(most, id, found.value, who, clock);
        if result.Claimed? { KeptThenTakes(row, found.value, next, result.claim); }
      }
    }
  }

  lemma FinishKeeps(most: Limits, id: JobId, row: Row, status: Status)
    requires RowOk(most, id, row) && !Terminal(row.job.status) && (status.Failed? || status.Cancelled?)
    ensures RowOk(most, id, Finish(row, status)) && Kept(row, Finish(row, status))
  {
  }

  lemma HolderKeeps(most: Limits, id: JobId, row: Row, a: Action, configured: Limits, clock: Clock)
    requires RowOk(most, id, row) && FromHolder(a) && Possible(id, row, a) && Within(configured, most)
    ensures RowOk(most, id, ActOnRow(id, row, a, configured, clock).0)
  {
    var next := ActOnRow(id, row, a, configured, clock).0;
    assert next.job.status.Running? ==> forall c :: Owns(row.job, c) ==> Owns(next.job, c);
  }

  lemma SweepKeeps(most: Limits, id: JobId, row: Row, stale: int, clock: Clock)
    requires RowOk(most, id, row)
    ensures RowOk(most, id, ReapRow(row, stale, clock)) && RowOk(most, id, CancelRow(row))
  {
    hide Finish;
    if !Terminal(row.job.status) {
      FinishKeeps(most, id, row, Failed(OcrTimeout));
      FinishKeeps(most, id, row, Cancelled);
    }
  }

  lemma ActionKeeps(most: Limits, id: JobId, row: Row, a: Action, configured: Limits, clock: Clock)
    requires RowOk(most, id, row) && Possible(id, row, a) && Within(configured, most)
    ensures RowOk(most, id, ActOnRow(id, row, a, configured, clock).0)
  {
    if FromHolder(a) {
      HolderKeeps(most, id, row, a, configured, clock);
    } else {
      hide RowOk, ClaimRow, Recover, ReapRow, CancelRow, Possible;
      if a.ClaimJob? {
        ClaimKeeps(most, id, row, a.who, a.candidate, configured, clock);
      } else if a.RecoverOrphan? {
        RecoverKeeps(most, id, row, a.holder, configured, clock);
      } else if a.Reap? {
        SweepKeeps(most, id, row, a.stale, clock);
      } else if a.Cancel? {
        SweepKeeps(most, id, row, 0, clock);
      }
    }
  }

  lemma HolderAdvances(most: Limits, id: JobId, row: Row, a: Action, configured: Limits, clock: Clock)
    requires RowOk(most, id, row) && FromHolder(a)
    ensures Kept(row, ActOnRow(id, row, a, configured, clock).0)
  {
  }

  lemma ActionAdvances(most: Limits, id: JobId, row: Row, a: Action, configured: Limits, clock: Clock)
    requires RowOk(most, id, row) && Possible(id, row, a) && Within(configured, most)
    ensures Advances(row, ActOnRow(id, row, a, configured, clock).0)
    ensures !a.ClaimJob? ==> ActOnRow(id, row, a, configured, clock).0.claims == row.claims
  {
    if FromHolder(a) {
      HolderAdvances(most, id, row, a, configured, clock);
    } else if a.ClaimJob? {
      hide ClaimRow, RowOk, Kept, Takes;
      ClaimKeeps(most, id, row, a.who, a.candidate, configured, clock);
    } else if a.RecoverOrphan? {
      hide Recover, RowOk;
      RecoverKeeps(most, id, row, a.holder, configured, clock);
    } else {
      hide RowOk;
    }
  }

  /** Advancing gives nothing back to a claim that does not hold the row. */
  lemma LostByAdvancing(most: Limits, id: JobId, row: Row, next: Row, c: Claim)
    requires RowOk(most, id, row) && Advances(row, next)
    requires c in row.claims && !Owns(row.job, c)
    ensures c in next.claims && !Owns(next.job, c)
  {
  }

  /** A terminal row is never touched again, by anyone. */
  lemma TerminalRowStays(most: Limits, id: JobId, row: Row, a: Action, configured: Limits, clock: Clock)
    requires RowOk(most, id, row) && Terminal(row.job.status)
    ensures ActOnRow(id, row, a, configured, clock).0 == row
  {
  }

  /** A claim that does not hold its row is answered with an error and leaves the row as it is. */
  lemma StrangerIsRefused(id: JobId, row: Row, a: Action, configured: Limits, clock: Clock)
    requires FromHolder(a) && !Owns(row.job, a.claim)
    ensures var (next, outcome) := ActOnRow(id, row, a, configured, clock);
            && next == row && outcome != Done
            && ((a.Succeed? ==> a.valid) && (a.Fail? ==> a.milliseconds >= 0) ==> outcome == OwnerLost)
  {
  }

  /** A claim ends at its first accepted completion. */
  lemma CompletionEndsTheClaim(id: JobId, row: Row, a: Action, configured: Limits, clock: Clock)
    requires a.Succeed? || a.Fail? || a.Requeue?
    requires ActOnRow(id, row, a, configured, clock).1 == Done
    ensures !Owns(ActOnRow(id, row, a, configured, clock).0.job, a.claim)
  {
  }

  // ---------------------------------------------------------------- whole runs

  lemma StepKeeps(most: Limits, t: Table, e: Event)
    requires Inv(most, t)
    ensures Inv(most, Step(most, t, e)) && t.Keys <= Step(most, t, e).Keys
  {
    if !e.fate.RolledBack? && e.id in t && Possible(e.id, t[e.id], e.action) && Within(e.configured, most) {
      ActionKeeps(most, e.id, t[e.id], e.action, e.configured, e.clock);
    }
  }

  lemma {:induction false} RunKeeps(most: Limits, t: Table, es: seq<Event>)
    requires Inv(most, t)
    ensures Inv(most, Run(most, t, es)) && t.Keys <= Run(most, t, es).Keys
    decreases es
  {
    if es != [] {
      StepKeeps(most, t, es[0]);
      RunKeeps(most, Step(most, t, es[0]), es[1..]);
    }
  }

  /** The fencing token of a row moves only with a committed claim on that row, and then by one. */
  lemma StepAdvances(most: Limits, t: Table, e: Event, id: JobId)
    requires Inv(most, t) && id in t
    ensures id in Step(most, t, e) && Advances(t[id], Step(most, t, e)[id])
    ensures Step(most, t, e)[id].claims != t[id].claims ==> e.id == id && e.action.ClaimJob? && !e.fate.RolledBack?
  {
    if !e.fate.RolledBack? && e.id == id && Possible(id, t[id], e.action) && Within(e.configured, most) {
      ActionAdvances(most, id, t[id], e.action, e.configured, e.clock);
    } else {
      assert Step(most, t, e)[id] == t[id];
    }
  }

  /** At every moment at most one claim ever issued for a job holds its row. */
  lemma SingleHolder(most: Limits, t: Table, es: seq<Event>, id: JobId, c: Claim, d: Claim)
    requires Inv(most, t) && id in Run(most, t, es)
    requires c in Run(most, t, es)[id].claims && d in Run(most, t, es)[id].claims
    requires Owns(Run(most, t, es)[id].job, c) && Owns(Run(most, t, es)[id].job, d)
    ensures c == d
  {
    RunKeeps(most, t, es);
  }

  /** Once a claim has lost its row, no later transaction gives the row back to it. */
  lemma {:induction false} LostStaysLost(most: Limits, t: Table, es: seq<Event>, id: JobId, c: Claim)
    requires Inv(most, t) && id in t && c in t[id].claims && !Owns(t[id].job, c)
    ensures id in Run(most, t, es) && c in Run(most, t, es)[id].claims && !Owns(Run(most, t, es)[id].job, c)
    decreases es
  {
    hide ActOnRow, RowOk, Advances;
    if es != [] {
      StepAdvances(most, t, es[0], id);
      StepKeeps(most, t, es[0]);
      LostByAdvancing(most, id, t[id], Step(most, t, es[0])[id], c);
      LostStaysLost(most, Step(most, t, es[0]), es[1..], id, c);
    }
  }

  /** Fencing: after a newer claim, or after the row left `running`, every statement of the older claim
  is refused in every later state of every run, whatever the clock says, and writes nothing. */
  lemma OlderClaimIsFenced(most: Limits, t: Table, es: seq<Event>, id: JobId, c: Claim, a: Action, configured: Limits,
      clock: Clock)
    requires Inv(most, t) && id in t && c in t[id].claims
    requires !t[id].job.status.Running? || exists d :: d in t[id].claims && d.fencingToken > c.fencingToken
    requires FromHolder(a) && a.claim == c
    ensures id in Run(most, t, es)
    ensures var (next, outcome) := ActOnRow(id, Run(most, t, es)[id], a, configured, clock);
            && next == Run(most, t, es)[id] && outcome != Done
            && ((a.Succeed? ==> a.valid) && (a.Fail? ==> a.milliseconds >= 0) ==> outcome == OwnerLost)
  {
    LostStaysLost(most, t, es, id, c);
    StrangerIsRefused(id, Run(most, t, es)[id], a, configured, clock);
  }

  /** Whether or not the client saw its COMMIT succeed, a completion takes effect once: repeating it, or
  trying another completion, is refused in every later state. */
  lemma CompletionTakesEffectOnce(most: Limits, t: Table, e: Event, es: seq<Event>, again: Action, configured: Limits,
      clock: Clock)
    requires Inv(most, t) && e.id in t && Possible(e.id, t[e.id], e.action) && Within(e.configured, most)
    requires e.action.Succeed? || e.action.Fail? || e.action.Requeue?
    requires !e.fate.RolledBack? && ActOnRow(e.id, t[e.id], e.action, e.configured, e.clock).1 == Done
    requires FromHolder(again) && again.claim == e.action.claim
    ensures var after := Run(most, Step(most, t, e), es);
            e.id in after && ActOnRow(e.id, after[e.id], again, configured, clock).0 == after[e.id]
                          && ActOnRow(e.id, after[e.id], again, configured, clock).1 != Done
  {
    hide RowOk, Owns, Advances;
    ActionAdvances(most, e.id, t[e.id], e.action, e.configured, e.clock);
    CompletionEndsTheClaim(e.id, t[e.id], e.action, e.configured, e.clock);
    StepKeeps(most, t, e);
    var next := Step(most, t, e);
    LostStaysLost(most, next, es, e.id, again.claim);
    StrangerIsRefused(e.id, Run(most, next, es)[e.id], again, configured, clock);
  }

  /** Terminal rows absorb: job, draft, claims and counters are fixed for ever. */
  lemma {:induction false} TerminalAbsorbs(most: Limits, t: Table, es: seq<Event>, id: JobId)
    requires Inv(most, t) && id in t && Terminal(t[id].job.status)
    ensures id in Run(most, t, es) && Run(most, t, es)[id] == t[id]
    decreases es
  {
    hide ActOnRow, RowOk, Advances;
    if es != [] {
      var e := es[0];
      TerminalRowStays(most, id, t[id], e.action, e.configured, e.clock);
      StepKeeps(most, t, e);
      TerminalAbsorbs(most, Step(most, t, e), es[1..], id);
    }
  }

  /** In every run from an empty table a draft exists exactly for the succeeded jobs. It was written by
  the newest claim the job ever had, and it stays exactly as that claim wrote it. */
  lemma DraftsBelongToSuccess(most: Limits, es: seq<Event>, id: JobId, more: seq<Event>)
    requires id in Run(most, map[], es)
    ensures var row := Run(most, map[], es)[id];
            && (row.draft.Some? <==> row.job.status.Succeeded?)
            && (row.draft.Some? ==>
                  && (exists c :: c in row.claims && row.writer == Some(c.fencingToken)
                       && c.draftId == row.draft.value.draftId)
                  && (forall c | c in row.claims :: c.fencingToken <= row.writer.value)
                  && id in Run(most, Run(most, map[], es), more) && Run(most, Run(most, map[], es), more)[id] == row)
  {
    RunKeeps(most, map[], es);
    var t := Run(most, map[], es);
    var row := t[id];
    if row.draft.Some? {
      NewestClaim(most, id, row);
      TerminalAbsorbs(most, t, more, id);
    }
  }

  /** The tokens of the claims of a row are exactly 1 to its fencing token. */
  lemma NewestClaim(most: Limits, id: JobId, row: Row)
    requires RowOk(most, id, row) && row.job.fencingToken > 0
    ensures exists c :: c in row.claims && c.fencingToken == row.job.fencingToken
  {
    var tokens := set c | c in row.claims :: c.fencingToken;
    TokensAreAsMany(row.claims, tokens);
    if row.job.fencingToken !in tokens {
      BoundedSet(tokens, row.job.fencingToken - 1);
    }
  }

  lemma {:induction false} TokensAreAsMany(claims: set<Claim>, tokens: set<int>)
    requires tokens == set c | c in claims :: c.fencingToken
    requires forall c, d | c in claims && d in claims && c.fencingToken == d.fencingToken :: c == d
    ensures |tokens| == |claims|
    decreases claims
  {
    if claims == {} {
      assert tokens == {};
    } else {
      var c :| c in claims;
      assert tokens - {c.fencingToken} == set d | d in claims - {c} :: d.fencingToken;
      TokensAreAsMany(claims - {c}, tokens - {c.fencingToken});
    }
  }

  lemma {:induction false} BoundedSet(s: set<int>, n: int)
    requires forall x | x in s :: 1 <= x <= n
    requires n >= 0
    ensures |s| <= n
    decreases n
  {
    if n == 0 {
      assert forall x | x in s :: false;
      assert s == {};
    } else {
      BoundedSet(s - {n}, n - 1);
      assert s <= (s - {n}) + {n};
      assert n !in s ==> s - {n} == s;
    }
  }

  /** Every attempt is accounted for by how it ended. Whatever limits the workers are configured with, up to
  any `most`, a job that is not interrupted is claimed at most 1 + retry limit + recovery limit times. */
  lemma AttemptsAreBounded(most: Limits, es: seq<Event>, id: JobId)
    requires id in Run(most, map[], es)
    ensures var row := Run(most, map[], es)[id];
            && |row.claims| == row.job.attemptCount
            && row.job.attemptCount == row.job.failureRetries + row.job.leaseRecoveries + row.ended.interruptions
                                       + row.ended.finals + (if row.job.status.Running? then 1 else 0)
            && row.ended.finals + (if row.job.status.Running? then 1 else 0) <= 1
            && row.job.failureRetries <= most.failureRetries && row.job.leaseRecoveries <= most.leaseRecoveries
            && |row.claims| <= 1 + most.failureRetries + most.leaseRecoveries + row.ended.interruptions
  {
    RunKeeps(most, map[], es);
  }

  /** No holder can be forgotten: once the clock has passed the lease, recovery takes the row away from
  it, whether that claim was ever seen by its client or not. */
  lemma ExpiredLeaseIsTaken(most: Limits, id: JobId, row: Row, configured: Limits, clock: Clock)
    requires RowOk(most, id, row) && row.job.status.Running?
    requires row.job.lease.value.expiresAt <= clock(0) && row.job.lease.value.expiresAt <= clock(2)
    ensures var lease := row.job.lease.value;
            var r := Recover(row, ExpiredLease(lease.owner, lease.attemptId, row.job.fencingToken),
                             configured.leaseRecoveries, clock);
            && r.Success? && !r.value.job.status.Running?
            && (r.value.job.status.Failed? <==> row.job.leaseRecoveries >= configured.leaseRecoveries)
            && r.value.job.fencingToken == row.job.fencingToken
  {
  }

  /** Every reading of the clock by the listed transactions lies before `limit`. */
  ghost predicate ClocksBefore(es: seq<Event>, limit: int) {
    forall e, k: nat | e in es :: e.clock(k) < limit
  }

  lemma UnexpiredRowIsKept(most: Limits, id: JobId, row: Row, a: Action, configured: Limits, clock: Clock, c: Claim)
    requires RowOk(most, id, row) && c in row.claims && Owns(row.job, c)
    requires forall k: nat :: clock(k) < row.job.lease.value.expiresAt
    requires Possible(id, row, a) && (FromHolder(a) ==> a.claim != c)
    ensures ActOnRow(id, row, a, configured, clock).0 == row
  {
    if FromHolder(a) {
      assert !Owns(row.job, a.claim);
      StrangerIsRefused(id, row, a, configured, clock);
    }
  }

  /** Nobody takes a lease before it expires: claims, recovery, reaping, cancelling and every other
  claim's statements leave the row of an unexpired holder exactly as it is. */
  lemma {:induction false} LeaseIsExclusiveUntilExpiry(most: Limits, t: Table, es: seq<Event>, id: JobId, c: Claim)
    requires Inv(most, t) && id in t && c in t[id].claims && Owns(t[id].job, c)
    requires ClocksBefore(es, t[id].job.lease.value.expiresAt)
    requires forall e | e in es && e.id == id && FromHolder(e.action) :: e.action.claim != c
    ensures id in Run(most, t, es) && Run(most, t, es)[id] == t[id]
    decreases es
  {
    hide ActOnRow, RowOk;
    if es != [] {
      var e := es[0];
      assert e in es && forall f | f in es[1..] :: f in es;
      if e.id == id && Possible(id, t[id], e.action) {
        UnexpiredRowIsKept(most, id, t[id], e.action, e.configured, e.clock, c);
      }
      StepKeeps(most, t, e);
      LeaseIsExclusiveUntilExpiry(most, Step(most, t, e), es[1..], id, c);
    }
  }

  /** A row that no claim can take yet: queued for later, or finished. */
  ghost predicate Waiting(row: Row, due: int) {
    (row.job.status.Queued? && row.job.availableAt == due) || Terminal(row.job.status)
  }

  lemma WaitingRowIsNotClaimed(most: Limits, id: JobId, row: Row, a: Action, configured: Limits, clock: Clock, due: int)
    requires RowOk(most, id, row) && Waiting(row, due) && Possible(id, row, a)
    requires forall k: nat :: clock(k) < due
    ensures var next := ActOnRow(id, row, a, configured, clock).0;
            Waiting(next, due) && next.claims == row.claims && next.job.attemptCount == row.job.attemptCount
  {
  }

  /** A requeued job is left alone until its retry delay has passed. */
  lemma {:induction false} RetryDelayIsRespected(most: Limits, t: Table, es: seq<Event>, id: JobId, due: int)
    requires Inv(most, t) && id in t && Waiting(t[id], due) && ClocksBefore(es, due)
    ensures id in Run(most, t, es) && Waiting(Run(most, t, es)[id], due)
    ensures Run(most, t, es)[id].claims == t[id].claims
    decreases es
  {
    hide ActOnRow, RowOk, Waiting;
    if es != [] {
      var e := es[0];
      assert e in es && forall f | f in es[1..] :: f in es;
      if e.id == id && Possible(id, t[id], e.action) {
        WaitingRowIsNotClaimed(most, id, t[id], e.action, e.configured, e.clock, due);
      }
      StepKeeps(most, t, e);
      RetryDelayIsRespected(most, Step(most, t, e), es[1..], id, due);
    }
  }

  /** An accepted heartbeat moves the end of the lease to the given distance and nothing else; an
  accepted retry of a failed attempt is due after the delay. */
  lemma AcceptedTimes(most: Limits, id: JobId, row: Row, c: Claim, duration: int, delay: int, configured: Limits,
      clock: Clock, now: int)
    requires RowOk(most, id, row)
    ensures var (next, outcome) := HeartbeatRow(row, c, duration, clock);
            outcome == Done ==>
              && (OwnsUnexpired(next.job, c, now) <==> now < clock(1) + duration)
              && next == row.(job := row.job.(lease := next.job.lease))
    ensures var (next, outcome) := RequeueRow(row, c, true, delay, configured.failureRetries, clock);
            outcome == Done && !next.job.status.Failed? ==> Waiting(next, clock(1) + delay)
  {
  }

  /** An accepted completion ends the job with exactly what its holder reported; a spent retry fails it. */
  lemma AcceptedEndings(row: Row, c: Claim, valid: bool, draft: Draft, code: FailureCode, milliseconds: int,
      delay: int, configured: Limits, clock: Clock)
    ensures var (next, outcome) := SucceedRow(row, c, valid, draft, clock);
            outcome == Done ==>
              && next.job == row.job.(status := Succeeded, lease := None)
              && next.draft == Some(Draft(c.draftId, draft.payload, draft.warnings))
    ensures var (next, outcome) := FailRow(row, c, code, milliseconds, clock);
            outcome == Done ==> next.job == row.job.(status := Failed(code), lease := None) && next.draft == row.draft
    ensures var (next, outcome) := RequeueRow(row, c, true, delay, configured.failureRetries, clock);
            outcome == Done ==>
              if row.job.failureRetries >= configured.failureRetries
              then next.job.status == Failed(OcrEngineUnavailable) && next.job.failureRetries == row.job.failureRetries
              else next.job.status.Queued? && next.job.failureRetries == row.job.failureRetries + 1
    ensures var (next, outcome) := RequeueRow(row, c, false, delay, configured.failureRetries, clock);
            outcome == Done ==> Waiting(next, clock(1)) && next.job.failureRetries == row.job.failureRetries
  {
  }

  // ---------------------------------------------------------------- the tables, statement by statement

  /** The two tables, with the rows of the specification as ghost state. A method is one transaction: it
  works on its own copy of the row and writes the tables only where the source commits. */
  class JobTables {
    var jobs: map<JobId, Job>
    var drafts: map<JobId, Draft>
    ghost var rows: Table

    ghost predicate Valid()
      reads this
    {
      && rows.Keys == jobs.Keys && drafts.Keys <= jobs.Keys
      && forall id | id in jobs :: rows[id].job == jobs[id] && rows[id].draft == Lookup(drafts, id)
    }

    constructor ()
      ensures Valid() && rows == map[]
    {
      jobs, drafts, rows := map[], map[], map[];
    }

    /** UPDATE of one job row. */
    method Write(id: JobId, job: Job, ghost row: Row)
      requires Valid() && id in jobs
      requires row.job == job && row.draft == Lookup(drafts, id)
      modifies this
      ensures Valid() && rows == old(rows)[id := row] && drafts == old(drafts)
    {
      jobs := jobs[id := job];
      rows := rows[id := row];
    }

    method Submit(id: JobId, draftId: string, now: int) returns (accepted: bool)
      requires Valid()
      modifies this
      ensures Valid() && accepted == (id !in old(rows))
      ensures rows == if accepted then old(rows)[id := Submitted(draftId, now)] else old(rows)
    {
      if id in jobs { return false; }
      jobs := jobs[id := Job(Queued, draftId, None, 0, 0, 0, 0, now, now, None)];
      rows := rows[id := Submitted(draftId, now)];
      return true;
    }

    /** `recover_expired_ocr_holder` on the job row it has locked. */
    method RecoverHolder(job: Job, holder: ExpiredLease, maximum: int, clock: Clock, ghost row: Row)
      returns (r: Result<Job, Outcome>)
      requires row.job == job
      ensures match Recover(row, holder, maximum, clock)
              case Success(next) => r == Result.Success(next.job)
              case Failure(error) => r == Failure(error)
    {
      var matches := && job.lease.Some? && job.lease.value.owner == holder.owner
                     && job.lease.value.attemptId == holder.attemptId
                     && job.fencingToken == holder.fencingToken;
      if !job.status.Running? {
        return Success(if matches then job.(lease := None) else job);
      }
      if !matches || job.lease.value.expiresAt > clock(0) { return Success(job); }
      if job.leaseRecoveries >= maximum {
        return Success(job.(status := Failed(OcrTimeout), lease := None));
      }
      if job.lease.value.expiresAt > clock(2) { return Failure(OwnerLost); }
      return Success(job.(status := Queued, lease := None, availableAt := clock(1), startedAt := None,
                          leaseRecoveries := job.leaseRecoveries + 1));
    }

    /** The recovery of one orphan found by a scan; the row is read again under its lock. */
    method RecoverOrphan(id: JobId, holder: ExpiredLease, configured: Limits, clock: Clock) returns (r: Outcome)
      requires Valid()
      modifies this
      ensures Valid()
      ensures id !in old(rows) ==> r == Done && rows == old(rows)
      ensures id in old(rows) ==>
                var (next, outcome) := ActOnRow(id, old(rows)[id], Action.RecoverOrphan(holder), configured, clock);
                r == outcome && rows == old(rows)[id := next]
    {
      if id !in jobs { return Done; }
      var recovered := RecoverHolder(jobs[id], holder, configured.leaseRecoveries, clock, rows[id]);
      if recovered.Failure? { return recovered.error; }
      Write(id, recovered.value, Recover(rows[id], holder, configured.leaseRecoveries, clock).value);
      return Done;
    }

    method ClaimJob(id: JobId, who: LeaseIdentity, candidate: Candidate, maximum: int, clock: Clock)
      returns (r: ClaimResult)
      requires Valid()
      modifies this
      ensures Valid()
      ensures id !in old(rows) ==> r == MissingOrTerminal && rows == old(rows)
      ensures id in old(rows) ==>
                var (next, result) := ClaimRow(id, old(rows)[id], who, candidate, maximum, clock);
                r == result && rows == old(rows)[id := next]
    {
      if id !in jobs { return MissingOrTerminal; }
      var job := jobs[id];
      if job.status.Running? && job.lease.Some? && job.lease.value.expiresAt <= clock(3) {
        var holder := ExpiredLease(job.lease.value.owner, job.lease.value.attemptId, job.fencingToken);
        var recovered := RecoverHolder(job, holder, maximum, clock, rows[id]);
        if recovered.Failure? { return Refused(recovered.error); }
        job := recovered.value;
      }
      ghost var found := RecoverForClaim(rows[id], maximum, clock).value;
      if Terminal(job.status) {
        Write(id, job, found);
        return MissingOrTerminal;
      }
      if candidate.Ungrouped? { return Refused(InvalidState); }
      if job.status.Running? {
        Write(id, job, found);
        return AlreadyRunning;
      }
      if job.availableAt > clock(4) {
        Write(id, job, found);
        return NotYetAvailable;
      }
      if candidate.InvalidContract? {
        Write(id, job.(status := Failed(QueueFailure), lease := None), Finish(found, Failed(QueueFailure)));
        return InvalidInput;
      }
      if job.fencingToken >= I64_MAX || job.attemptCount >= I32_MAX { return Refused(NumericBound); }
      if job.availableAt > clock(5) { return Refused(OwnerLost); }
      var c := Claim(id, job.draftId, who.worker, who.attemptId, who.token, job.attemptCount + 1, job.fencingToken + 1);
      var lease := Lease(who.worker, who.attemptId, who.token, clock(6) + who.duration);
      job := job.(status := Running, attemptCount := c.attemptCount, startedAt := Some(clock(7)),
                  lease := Some(lease), fencingToken := c.fencingToken);
      Write(id, job, Acquire(id, found, who, clock).0);
      return Claimed(c);
    }

    method Heartbeat(c: Claim, duration: int, clock: Clock) returns (r: Outcome)
      requires Valid()
      modifies this
      ensures Valid()
      ensures c.jobId !in old(rows) ==> r == OwnerLost && rows == old(rows)
      ensures c.jobId in old(rows) ==>
                var (next, outcome) := HeartbeatRow(old(rows)[c.jobId], c, duration, clock);
                r == outcome && rows == old(rows)[c.jobId := next]
    {
      if c.jobId !in jobs { return OwnerLost; }
      var job := jobs[c.jobId];
      if !OwnsUnexpired(job, c, clock(0)) { return OwnerLost; }
      job := job.(lease := Some(job.lease.value.(expiresAt := clock(1) + duration)));
      Write(c.jobId, job, rows[c.jobId].(job := job));
      return Done;
    }

    method FinishSuccess(c: Claim, valid: bool, draft: Draft, clock: Clock) returns (r: Outcome)
      requires Valid()
      modifies this
      ensures Valid()
      ensures c.jobId !in old(rows) ==> r == (if valid then OwnerLost else InvalidCompletion) && rows == old(rows)
      ensures c.jobId in old(rows) ==>
                var (next, outcome) := SucceedRow(old(rows)[c.jobId], c, valid, draft, clock);
                r == outcome && rows == old(rows)[c.jobId := next]
    {
      if !valid { return InvalidCompletion; }
      if c.jobId !in jobs { return OwnerLost; }
      var id, job := c.jobId, jobs[c.jobId];
      if !OwnsUnexpired(job, c, clock(0)) { return OwnerLost; }
      drafts := drafts[id := draft.(draftId := c.draftId)];
      jobs := jobs[id := job.(status := Succeeded, lease := None)];
      rows := rows[id := SucceedRow(rows[id], c, valid, draft, clock).0];
      return Done;
    }

    method FinishFailure(c: Claim, code: FailureCode, milliseconds: int, clock: Clock) returns (r: Outcome)
      requires Valid()
      modifies this
      ensures Valid()
      ensures c.jobId !in old(rows) ==> r == (if milliseconds < 0 then NumericBound else OwnerLost) && rows == old(rows)
      ensures c.jobId in old(rows) ==>
                var (next, outcome) := FailRow(old(rows)[c.jobId], c, code, milliseconds, clock);
                r == outcome && rows == old(rows)[c.jobId := next]
    {
      if milliseconds < 0 { return NumericBound; }
      if c.jobId !in jobs { return OwnerLost; }
      var id, job := c.jobId, jobs[c.jobId];
      if !OwnsUnexpired(job, c, clock(0)) { return OwnerLost; }
      Write(id, job.(status := Failed(code), lease := None), Finish(rows[id], Failed(code)));
      return Done;
    }

    method Requeue(c: Claim, failed: bool, delay: int, maximum: int, clock: Clock) returns (r: Outcome)
      requires Valid()
      modifies this
      ensures Valid()
      ensures c.jobId !in old(rows) ==> r == OwnerLost && rows == old(rows)
      ensures c.jobId in old(rows) ==>
                var (next, outcome) := RequeueRow(old(rows)[c.jobId], c, failed, delay, maximum, clock);
                r == outcome && rows == old(rows)[c.jobId := next]
    {
      if c.jobId !in jobs { return OwnerLost; }
      var id, job := c.jobId, jobs[c.jobId];
      if !OwnsUnexpired(job, c, clock(0)) { return OwnerLost; }
      if failed && job.failureRetries >= maximum {
        Write(id, job.(status := Failed(OcrEngineUnavailable), lease := None),
              Finish(rows[id], Failed(OcrEngineUnavailable)));
        return Done;
      }
      job := job.(status := Queued, lease := None, availableAt := clock(1) + (if failed then delay else 0),
                  startedAt := None,
                  failureRetries := job.failureRetries + if failed then 1 else 0);
      Write(id, job, RequeueRow(rows[id], c, failed, delay, maximum, clock).0);
      return Done;
    }
  }
}
