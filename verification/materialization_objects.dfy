/** The rows behind `Materialization`, changed in place: one title under its lock, and the page of pending
targets that one pass of the scheduler expands. */
module MaterializationObjects {
  import opened Wrappers
  import opened M = Materialization

  class TitleRows {
    var desired: Option<Desired>
    var pendingWork: bool
    var jobs: map<JobId, Job>
    var requests: map<RequestId, Request>
    var targets: map<CampaignId, Target>
    var radar: map<RadarId, Radar>
    var clock: int

    function View(): Title
      reads this
    {
      Title(desired, pendingWork, jobs, requests, targets, radar, clock)
    }

    constructor (t: Title)
      ensures View() == t
    {
      desired, pendingWork, jobs, requests, targets, radar, clock :=
        t.desired, t.pendingWork, t.jobs, t.requests, t.targets, t.radar, t.clock;
    }

    /** `lock_active_analysis_job`. */
    method LockActiveJob() returns (active: Option<JobId>)
      requires OneActive(jobs)
      ensures ActiveRow(View(), active)
    {
      active := None;
      var rest := jobs.Keys;
      while rest != {}
        invariant rest <= jobs.Keys
        invariant active.None? && forall j | j in jobs && j !in rest :: !Active(jobs[j])
        decreases rest
      {
        var j: JobId :| j in rest;
        if Active(jobs[j]) {
          active := Some(j);
          return;
        }
        rest := rest - {j};
      }
    }

    /** `assign_campaign_target` and the inserted request. */
    method MaterializeTarget(c: CampaignId, wanted: Desired, active: Option<JobId>) returns (error: Option<Error>)
      requires c in targets && ActiveRow(View(), active)
      modifies this
      ensures Materialize(old(View()), c, wanted, active).Success? ==>
                error.None? && View() == Materialize(old(View()), c, wanted, active).value
      ensures Materialize(old(View()), c, wanted, active).Failure? ==>
                error == Some(Materialize(old(View()), c, wanted, active).error) && View() == old(View())
    {
      var target := targets[c];
      var decision := Decide(View(), active, target);
      if decision.Failure? {
        return Some(decision.error);
      }
      if (decision.value.Create? && ForTarget(c) in jobs) || ForCampaign(c) in requests {
        return Some(UniqueViolation);
      }
      error := None;
      var request := Request(target.revision, target.version, target.accepted, Pending, None, None, None);
      match decision.value {
        case Create =>
          jobs := jobs[ForTarget(c) := NewJob(wanted, false)];
          request := request.(job := Some(ForTarget(c)));
        case RefreshQueued(j) =>
          jobs := jobs[j := jobs[j].(revision := wanted.revision, version := wanted.version)];
          request := request.(job := Some(j));
        case JoinRunning(j, n) =>
          request := request.(status := Assigned, job := Some(j), attempt := Some(n));
        case DeferForcedRun =>
          pendingWork := true;
      }
      requests := requests[ForCampaign(c) := request];
      targets := targets[c := target.(status := Expanded)];
    }

    /** `expand_campaign_target`. */
    method ExpandTarget(c: CampaignId) returns (done: Result<bool, Error>)
      requires Inv(View())
      modifies this
      ensures Inv(View()) && Advances(old(View()), View())
      ensures done.Failure? <==>
                c in old(targets) && old(targets[c]).status.TargetPending? && !IsValidTarget(old(targets[c]))
      ensures done.Failure? ==> done.error == InvalidRecordValue && View() == old(View())
      ensures done.Success? ==> (done.value <==> c in old(targets) && old(targets[c]).status.TargetPending?)
      ensures done.Success? && !done.value ==> View() == old(View())
      ensures done.Success? && done.value ==>
                targets == old(targets)[c := old(targets[c]).(status := if old(desired).Some? then Expanded
                                                                        else Skipped)]
    {
      ghost var before := View();
      Unchanged(before);
      var active: Option<JobId> := None;
      if desired.Some? {
        active := LockActiveJob();
      }
      if c !in targets || !targets[c].status.TargetPending? {
        return Success(false);
      }
      if !IsValidTarget(targets[c]) {
        return Failure(InvalidRecordValue);
      }
      if desired.None? {
        targets := targets[c := targets[c].(status := Skipped)];
        SkipIsAnExpansion(before, View(), c);
        ExpandKeeps(before, c, None);
      } else {
        var wanted := desired.value;
        MaterializeKeeps(before, c, active);
        ExpansionPlacesTheRequest(before, c, active);
        var error := MaterializeTarget(c, wanted, active);
        assert error.None?;
      }
      return Success(true);
    }
  }

  lemma SkipIsAnExpansion(t: Title, u: Title, c: CampaignId)
    requires Inv(t) && t.desired.None? && c in t.targets && t.targets[c].status.TargetPending?
               && IsValidTarget(t.targets[c])
    requires u == t.(targets := t.targets[c := t.targets[c].(status := Skipped)])
    ensures ActiveRow(t, None) && Step(t, M.ExpandTarget(c, None)) == u
  {
  }

  datatype TargetKey = TargetKey(campaign: CampaignId, title: string)

  /** The targets that are still to be expanded, over all titles. */
  ghost function PendingKeys(titles: map<string, Title>): set<TargetKey> {
    set id, c | id in titles && c in titles[id].targets && titles[id].targets[c].status.TargetPending? ::
        TargetKey(c, id)
  }

  ghost predicate AllOk(titles: map<string, Title>) {
    forall id | id in titles :: Inv(titles[id])
  }

  /** One title takes one target out of the pending ones. */
  lemma OneLess(before: map<string, Title>, after: map<string, Title>, k: TargetKey)
    requires k.title in before && k.campaign in before[k.title].targets
               && before[k.title].targets[k.campaign].status.TargetPending?
    requires k.title in after && after == before[k.title := after[k.title]]
    requires after[k.title].targets.Keys == before[k.title].targets.Keys
    requires forall c | c in after[k.title].targets ::
               after[k.title].targets[c].status.TargetPending? <==>
                 c != k.campaign && before[k.title].targets[c].status.TargetPending?
    ensures k in PendingKeys(before) && PendingKeys(after) == PendingKeys(before) - {k}
    ensures |PendingKeys(before)| == |PendingKeys(after)| + 1
  {
    assert k in PendingKeys(before);
    forall p ensures p in PendingKeys(after) <==> p in PendingKeys(before) - {k} {
    }
    assert PendingKeys(after) == PendingKeys(before) - {k};
  }

  /** `expand_pending_campaign_targets`: every key of the page in its own transaction. `contended` says which
  of them meet a lock that is taken. */
  class Titles {
    var rows: map<string, Title>

    constructor (rows: map<string, Title>)
      ensures this.rows == rows
    {
      this.rows := rows;
    }

    method ExpandOne(key: TargetKey) returns (done: Result<bool, Error>)
      requires AllOk(rows)
      modifies this`rows
      ensures AllOk(rows) && rows.Keys == old(rows).Keys
      ensures !(done.Success? && done.value) ==> rows == old(rows)
      ensures done.Success? ==> key !in PendingKeys(rows)
      ensures done.Success? && done.value ==>
                && key in PendingKeys(old(rows)) && PendingKeys(rows) == PendingKeys(old(rows)) - {key}
                && |PendingKeys(old(rows))| == |PendingKeys(rows)| + 1
    {
      hide Inv, Advances, IsValidTarget;
      if key.title !in rows {
        return Success(false);
      }
      ghost var before := rows;
      var title := new TitleRows(rows[key.title]);
      done := title.ExpandTarget(key.campaign);
      if done.Success? && done.value {
        rows := rows[key.title := title.View()];
        OneLess(before, rows, key);
      }
    }

    /** What the pass reports is exactly how many targets left the pending ones, all of them from its page;
    a contended or stale key costs nothing, and a bad target stops the pass but undoes none of it. */
    method ExpandPage(page: seq<TargetKey>, contended: set<TargetKey>) returns (expanded: Result<nat, Error>)
      requires AllOk(rows)
      modifies this`rows
      ensures AllOk(rows) && rows.Keys == old(rows).Keys
      ensures PendingKeys(rows) <= PendingKeys(old(rows))
      ensures forall k | k in PendingKeys(old(rows)) && k !in PendingKeys(rows) :: k in page && k !in contended
      ensures expanded.Success? ==> |PendingKeys(old(rows))| == |PendingKeys(rows)| + expanded.value
      ensures expanded.Success? ==> forall k | k in page && k !in contended :: k !in PendingKeys(rows)
    {
      hide Inv, AllOk, PendingKeys;
      var count: nat := 0;
      for i := 0 to |page|
        invariant AllOk(rows) && rows.Keys == old(rows).Keys
        invariant PendingKeys(rows) <= PendingKeys(old(rows))
        invariant forall k | k in PendingKeys(old(rows)) && k !in PendingKeys(rows) :: k in page && k !in contended
        invariant |PendingKeys(old(rows))| == |PendingKeys(rows)| + count
        invariant forall k | k in page[..i] && k !in contended :: k !in PendingKeys(rows)
      {
        assert page[..i + 1] == page[..i] + [page[i]];
        if page[i] !in contended {
          var done := ExpandOne(page[i]);
          if done.Failure? {
            return Failure(done.error);
          }
          if done.value {
            count := count + 1;
          }
        }
      }
      assert page[..|page|] == page;
      return Success(count);
    }
  }
}
