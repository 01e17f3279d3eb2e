/** What the transactions on OCR jobs answer, read off the columns of the row: which rows are claimed, recovered,
completed and reaped, and which are left alone. */
module OcrAnswers {
  import opened Wrappers
  import opened OcrLease

  /** The readings of one claim in the order in which its statements take them: the search for an expired lease,
  the recovery with its guard and its new due time, the candidate, and the columns of the claiming UPDATE. */
  predicate InOrder(clock: Clock) {
    clock(3) <= clock(0) <= clock(2) <= clock(1) <= clock(4) <= clock(5) <= clock(6) <= clock(7)
  }

  predicate HasExpired(job: Job, now: int) { job.status.Running? && job.lease.Some?
      && job.lease.value.expiresAt <= now }

  /** A claim may take the row: it waits and is due, or its holder has outlived the lease and may be recovered. */
  predicate IsFree(job: Job, maximum: int, clock: Clock) {
    || (job.status.Queued? && job.availableAt <= clock(4))
    || (HasExpired(job, clock(3)) && job.leaseRecoveries < maximum)
  }

  /** The recovery that ends the job instead of freeing it. */
  predicate IsSpent(job: Job, maximum: int, clock: Clock) {
    HasExpired(job, clock(3)) && job.leaseRecoveries >= maximum
  }

  predicate IsCountable(job: Job) { job.fencingToken < I64_MAX && job.attemptCount < I32_MAX }

  /** An expired lease is recovered by the claim that finds it. */
  lemma RecoveryFrees(most: Limits, id: JobId, row: Row, maximum: int, clock: Clock)
    requires RowOk(most, id, row) && InOrder(clock)
    ensures RecoverForClaim(row, maximum, clock).Success?
    ensures var job, found := row.job, RecoverForClaim(row, maximum, clock).value.job;
            if IsSpent(job, maximum, clock) then found == job.(status := Failed(OcrTimeout), lease := None)
            else if HasExpired(job, clock(3)) then
              found == job.(status := Queued, lease := None, availableAt := clock(1), startedAt := None,
                            leaseRecoveries := job.leaseRecoveries + 1)
            else RecoverForClaim(row, maximum, clock).value == row
  {
  }

  /** Every answer of a claim, by the columns it finds. */
  lemma ClaimAnswers(most: Limits, id: JobId, row: Row, who: LeaseIdentity, candidate: Candidate, maximum: int,
      clock: Clock)
    requires RowOk(most, id, row) && InOrder(clock)
    ensures var (job, answer) := (row.job, ClaimRow(id, row, who, candidate, maximum, clock).1);
            && (answer.Claimed? <==> candidate.Valid? && IsFree(job, maximum, clock) && IsCountable(job))
            && (answer.MissingOrTerminal? <==> Terminal(job.status) || IsSpent(job, maximum, clock))
            && (answer == Refused(InvalidState) <==>
                  candidate.Ungrouped? && !Terminal(job.status) && !IsSpent(job, maximum, clock))
            && (answer.AlreadyRunning? <==> !candidate.Ungrouped? && job.status.Running? && !HasExpired(job, clock(3)))
            && (answer.NotYetAvailable? <==> !candidate.Ungrouped? && job.status.Queued? && job.availableAt > clock(4))
            && (answer.InvalidInput? <==> candidate.InvalidContract? && IsFree(job, maximum, clock))
            && (answer == Refused(NumericBound) <==>
                  candidate.Valid? && IsFree(job, maximum, clock) && !IsCountable(job))
            && (answer.Refused? ==> answer.error in {InvalidState, NumericBound})
  {
    RecoveryFrees(most, id, row, maximum, clock);
    hide RecoverForClaim, RowOk;
  }

  /** A claimed row: the claim and the lease carry the identity of the claimer, with the next token and attempt. */
  lemma ClaimedRow(most: Limits, id: JobId, row: Row, who: LeaseIdentity, candidate: Candidate, maximum: int,
      clock: Clock)
    requires RowOk(most, id, row) && InOrder(clock) && ClaimRow(id, row, who, candidate, maximum, clock).1.Claimed?
    ensures var (job, (next, answer)) := (row.job, ClaimRow(id, row, who, candidate, maximum, clock));
            && answer.claim == Claim(id, job.draftId, who.worker, who.attemptId, who.token,
                                     job.attemptCount + 1, job.fencingToken + 1)
            && next.claims == row.claims + {answer.claim} && next.draft == row.draft
            && next.job.status.Running? && next.job.startedAt == Some(clock(7))
            && next.job.lease == Some(Lease(who.worker, who.attemptId, who.token, clock(6) + who.duration))
            && next.job.attemptCount == job.attemptCount + 1 && next.job.fencingToken == job.fencingToken + 1
            && next.job.failureRetries == job.failureRetries
            && next.job.leaseRecoveries == job.leaseRecoveries + if job.status.Running? then 1 else 0
  {
    RecoveryFrees(most, id, row, maximum, clock);
    RecoveryKeepsTheRest(row, maximum, clock);
    hide RecoverForClaim, RowOk;
  }

  lemma RecoveryKeepsTheRest(row: Row, maximum: int, clock: Clock)
    ensures RecoverForClaim(row, maximum, clock).Success? ==>
              var found := RecoverForClaim(row, maximum, clock).value;
              found.claims == row.claims && found.draft == row.draft && found.writer == row.writer
  {
  }

  /** The rows that a claim does not take: a bad contract fails the job, a spent lease times it out, and everything
  else leaves the row as it was. */
  lemma UnclaimedRow(most: Limits, id: JobId, row: Row, who: LeaseIdentity, candidate: Candidate, maximum: int,
      clock: Clock)
    requires RowOk(most, id, row) && InOrder(clock) && !ClaimRow(id, row, who, candidate, maximum, clock).1.Claimed?
    ensures var (job, (next, answer)) := (row.job, ClaimRow(id, row, who, candidate, maximum, clock));
            && (answer.InvalidInput? ==> next.job.status == Failed(QueueFailure) && next.job.lease.None?)
            && (IsSpent(job, maximum, clock) ==> next.job.status == Failed(OcrTimeout) && next.job.lease.None?)
            && (!answer.InvalidInput? && !IsSpent(job, maximum, clock) ==> next == row)
            && next.claims == row.claims && next.draft == row.draft
  {
    RecoveryFrees(most, id, row, maximum, clock);
    RecoveryKeepsTheRest(row, maximum, clock);
    hide RecoverForClaim, RowOk;
  }

  /** The recovery of a scanned lease touches exactly the row that this holder still has after its expiry. */
  lemma RecoveryAnswers(most: Limits, id: JobId, row: Row, holder: ExpiredLease, maximum: int, clock: Clock)
    requires RowOk(most, id, row) && InOrder(clock)
    ensures var (job, r) := (row.job, Recover(row, holder, maximum, clock));
            var held := && HasExpired(job, clock(0)) && job.fencingToken == holder.fencingToken
                        && job.lease.value.owner == holder.owner && job.lease.value.attemptId == holder.attemptId;
            && r.Success?
            && if !held then r.value == row
               else if job.leaseRecoveries >= maximum then
                 r.value.job == job.(status := Failed(OcrTimeout), lease := None)
               else
                 r.value.job == job.(status := Queued, lease := None, availableAt := clock(1), startedAt := None,
                                     leaseRecoveries := job.leaseRecoveries + 1)
  {
  }

  /** Every statement of a claim holder is accepted exactly from the unexpired owner, and well formed. */
  lemma HolderAnswers(id: JobId, row: Row, a: Action, configured: Limits, clock: Clock)
    requires FromHolder(a)
    ensures var (c, job, (next, outcome)) := (a.claim, row.job, ActOnRow(id, row, a, configured, clock));
            var owner := && job.status.Running? && job.lease.Some? && clock(0) < job.lease.value.expiresAt
                         && Lease(c.worker, c.attemptId, c.leaseToken, job.lease.value.expiresAt) == job.lease.value
                         && c.fencingToken == job.fencingToken;
            && (outcome == Done <==> owner && (a.Succeed? ==> a.valid) && (a.Fail? ==> a.milliseconds >= 0))
            && (outcome == InvalidCompletion <==> a.Succeed? && !a.valid)
            && (outcome == NumericBound <==> a.Fail? && a.milliseconds < 0)
            && (outcome in {Done, InvalidCompletion, NumericBound, OwnerLost})
            && (outcome != Done ==> next == row)
  {
  }

  /** What an accepted statement leaves in the row. */
  lemma HolderEffects(id: JobId, row: Row, a: Action, configured: Limits, clock: Clock)
    requires FromHolder(a) && ActOnRow(id, row, a, configured, clock).1 == Done
    ensures var (job, next) := (row.job, ActOnRow(id, row, a, configured, clock).0);
            && next.claims == row.claims
            && (a.Heartbeat? ==>
                  next == row.(job := job.(lease := Some(job.lease.value.(expiresAt := clock(1) + a.duration)))))
            && (a.Succeed? ==>
                  && next.job == job.(status := Succeeded, lease := None) && next.writer == Some(a.claim.fencingToken)
                  && next.draft == Some(Draft(a.claim.draftId, a.draft.payload, a.draft.warnings)))
            && (a.Fail? ==> next.job == job.(status := Failed(a.code), lease := None) && next.draft == row.draft)
            && (a.Requeue? && a.failed && job.failureRetries >= configured.failureRetries ==>
                  next.job == job.(status := Failed(OcrEngineUnavailable), lease := None))
            && (a.Requeue? && a.failed && job.failureRetries < configured.failureRetries ==>
                  next.job == job.(status := Queued, lease := None, startedAt := None,
                                   availableAt := clock(1) + a.delay, failureRetries := job.failureRetries + 1))
            && (a.Requeue? && !a.failed ==>
                  next.job == job.(status := Queued, lease := None, startedAt := None, availableAt := clock(1)))
  {
  }

  /** The repair scan ends exactly the open jobs that began before its bound and that nobody holds. */
  lemma ReapAnswers(most: Limits, id: JobId, row: Row, stale: int, clock: Clock)
    requires RowOk(most, id, row)
    ensures var (job, next) := (row.job, ReapRow(row, stale, clock));
            var began := if job.startedAt.Some? then job.startedAt.value else job.createdAt;
            var held := job.status.Running? && clock(1) < job.lease.value.expiresAt;
            if !Terminal(job.status) && began + stale < clock(0) && !held
            then next.job == job.(status := Failed(OcrTimeout), lease := None) else next == row
    ensures CancelRow(row) == if row.job.status.Queued? then Finish(row, Cancelled) else row
  {
  }

  /** A job that is free is taken by the next committed claim with a valid candidate, seen by its client or not. */
  lemma DueJobsAreClaimed(most: Limits, t: Table, e: Event)
    requires Inv(most, t) && e.id in t && e.action.ClaimJob? && InOrder(e.clock) && !e.fate.RolledBack?
    requires Within(e.configured, most) && e.action.candidate.Valid?
    requires IsFree(t[e.id].job, e.configured.leaseRecoveries, e.clock) && IsCountable(t[e.id].job)
    ensures var row := Step(most, t, e)[e.id];
            exists c :: c in row.claims && c !in t[e.id].claims && Owns(row.job, c)
                        && c.worker == e.action.who.worker && c.leaseToken == e.action.who.token
  {
    ClaimAnswers(most, e.id, t[e.id], e.action.who, e.action.candidate, e.configured.leaseRecoveries, e.clock);
    ClaimedRow(most, e.id, t[e.id], e.action.who, e.action.candidate, e.configured.leaseRecoveries, e.clock);
    var c := ClaimRow(e.id, t[e.id], e.action.who, e.action.candidate, e.configured.leaseRecoveries, e.clock).1.claim;
    assert c !in t[e.id].claims;
    hide ClaimRow;
  }
}
