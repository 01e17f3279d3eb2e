/** Promotion of a release, and the audit that inspects its result.

A promotion locks the release row and every title, then moves all of them to the released version and
creates a campaign over the eligible titles, in one transaction. An operation key makes it idempotent. */
module Promotion {
  import opened Wrappers
  import C = Campaign
  import M = Materialization

  type TitleId = int
  type ArtifactId = string
  type Key = string

  /** What this build of the program calculates, stores and attests. */
  datatype Released = Released(algorithm: string, schema: int, contract: string)

  function VersionOf(released: Released): M.Version {
    M.Version(released.algorithm, released.schema, Some(released.contract))
  }

  datatype Trigger = AlgorithmUpdate | ArtifactSchemaUpdate | ValidationContractUpdate | InitialBackfill

  function Wire(trigger: Trigger): string {
    match trigger
    case AlgorithmUpdate => "algorithm_update"
    case ArtifactSchemaUpdate => "artifact_schema_update"
    case ValidationContractUpdate => "validation_contract_update"
    case InitialBackfill => "initial_backfill"
  }

  /** Declared and actual chunk counts, in the order aggregate, review, drilldown, match context. */
  datatype Chunks = Chunks(declared: seq<Option<int>>, actual: seq<int>, invalid: int)

  datatype Artifact = Artifact(published: bool, revision: int, version: M.Version, chunks: Chunks)

  /** One title: its scheduling rows, its artifact pointers, and what `initial_backfill` asks about. */
  datatype Row = Row(title: M.Title, current: Option<ArtifactId>, previous: Option<ArtifactId>, matches: nat,
      achievements: nat)

  datatype Operation = Operation(endpoint: string, trigger: Trigger, version: M.Version, campaign: M.CampaignId,
      targetCount: nat)

  datatype Store = Store(
    release: Option<M.Version>, titles: map<TitleId, Row>, artifacts: map<ArtifactId, Artifact>,
    operations: map<Key, Operation>, campaigns: map<M.CampaignId, C.Row>, clock: int)

  datatype Capability = Capability(compatible: nat, incompatible: nat)

  datatype Request = Request(key: Key, trigger: Trigger, apply: bool)

  datatype Report = Report(applied: bool, campaign: M.CampaignId, targetCount: nat, replay: bool)

  datatype Error = ReaderNotReady | ReaderIncompatible | WorkerNotReady | WorkerIncompatible
                 | IdempotencyConflict | ReleaseStateMismatch | ReleaseRowMissing | NumericBound

  const MAX_TARGETS := 0x7fff_ffff

  // ---------------------------------------------------------------- the decision

  function ValidateReaders(c: Capability): Option<Error> {
    if c.incompatible > 0 then Some(ReaderIncompatible) else if c.compatible == 0 then Some(ReaderNotReady) else None
  }

  function ValidateWorkers(c: Capability): Option<Error> {
    if c.incompatible > 0 then Some(WorkerIncompatible) else if c.compatible == 0 then Some(WorkerNotReady) else None
  }

  function ValidateCapabilities(readers: Capability, workers: Capability): Option<Error> {
    var r := ValidateReaders(readers);
    if r.Some? then r else ValidateWorkers(workers)
  }

  function Endpoint(trigger: Trigger): string { "release:" + Wire(trigger) }

  predicate SameParameters(existing: Operation, request: Request, released: Released) {
    existing.endpoint == Endpoint(request.trigger) && existing.trigger == request.trigger
        && existing.version == VersionOf(released)
  }

  /** Stable campaign ids are distinct for distinct keys. */
  function CampaignOf(key: Key): M.CampaignId { "analysis-release-campaign-" + key }

  predicate IsEligible(row: Row, trigger: Trigger) {
    !trigger.InitialBackfill? || row.matches > 0 || row.achievements > 0
  }

  /** The titles that have a state row, and the ones among them that become targets. */
  function Locked(s: Store): set<TitleId> {
    set id | id in s.titles && s.titles[id].title.desired.Some?
  }

  function Targets(s: Store, trigger: Trigger): set<TitleId> {
    set id | id in Locked(s) && IsEligible(s.titles[id], trigger)
  }

  // ---------------------------------------------------------------- what applying it does

  /** A pointer survives only to a published artifact of the released format. */
  predicate Supported(artifacts: map<ArtifactId, Artifact>, a: ArtifactId, released: Released) {
    a in artifacts && artifacts[a].published
    && artifacts[a].version.schema == released.schema && artifacts[a].version.contract == Some(released.contract)
  }

  function Detach(artifacts: map<ArtifactId, Artifact>, pointer: Option<ArtifactId>, released: Released)
    : Option<ArtifactId>
  {
    if pointer.Some? && Supported(artifacts, pointer.value, released) then pointer else None
  }

  function TargetFor(revision: int, released: Released, trigger: Trigger, now: int): M.Target {
    M.Target(revision, VersionOf(released), now, Wire(trigger), VersionOf(released), M.TargetPending)
  }

  /** One locked title after the promotion. */
  function AppliedTitle(t: M.Title, request: Request, released: Released, eligible: bool, now: int): M.Title
    requires t.desired.Some?
  {
    var u := M.Release(t, VersionOf(released), eligible);
    if eligible
    then
      var target := TargetFor(t.desired.value.revision, released, request.trigger, now);
      u.(targets := u.targets[CampaignOf(request.key) := target])
    else u
  }

  function AppliedRow(s: Store, id: TitleId, request: Request, released: Released): Row
    requires id in s.titles
  {
    var row := s.titles[id];
    if row.title.desired.None? then row
    else row.(title := AppliedTitle(row.title, request, released, IsEligible(row, request.trigger), s.clock),
              current := Detach(s.artifacts, row.current, released),
              previous := Detach(s.artifacts, row.previous, released))
  }

  function Applied(s: Store, request: Request, released: Released): Store {
    var targets := Targets(s, request.trigger);
    s.(release := Some(VersionOf(released)),
       titles := map id | id in s.titles :: AppliedRow(s, id, request, released),
       operations := s.operations[request.key := Operation(Endpoint(request.trigger), request.trigger,
                                                           VersionOf(released),
                                                           CampaignOf(request.key), |targets|)],
       campaigns := s.campaigns[CampaignOf(request.key) := C.NewRow(targets, s.clock)])
  }

  /** `promote_transaction`: the answer and the committed state. */
  function Promote(s: Store, request: Request, released: Released, readers: Capability, workers: Capability)
    : (Store, Result<Report, Error>)
  {
    var capable := ValidateCapabilities(readers, workers);
    if request.key in s.operations then
      var existing := s.operations[request.key];
      if !SameParameters(existing, request, released) then (s, Failure(IdempotencyConflict))
      else if capable.Some? then (s, Failure(capable.value))
      else if s.release != Some(VersionOf(released)) then (s, Failure(ReleaseStateMismatch))
      else (s, Success(Report(request.apply, existing.campaign, existing.targetCount, true)))
    else if capable.Some? then (s, Failure(capable.value))
    else if s.release.None? then (s, Failure(ReleaseRowMissing))
    else
      var count := |Targets(s, request.trigger)|;
      if request.apply && count > MAX_TARGETS then (s, Failure(NumericBound))
      else (if request.apply then Applied(s, request, released) else s,
            Success(Report(request.apply, CampaignOf(request.key), count, false)))
  }

  // ---------------------------------------------------------------- the contract

  ghost predicate StoreOk(s: Store) {
    && (forall id | id in s.titles :: M.Inv(s.titles[id].title) && s.titles[id].title.clock >= s.clock)
    && (forall key, id | key !in s.operations && id in s.titles :: CampaignOf(key) !in s.titles[id].title.targets)
    && (forall key | key !in s.operations :: CampaignOf(key) !in s.campaigns)
  }

  lemma CampaignsAreDistinct(k: Key, l: Key)
    ensures CampaignOf(k) == CampaignOf(l) <==> k == l
  {
    var p := "analysis-release-campaign-";
    if CampaignOf(k) == CampaignOf(l) {
      assert CampaignOf(k)[|p|..] == k && CampaignOf(l)[|p|..] == l;
    }
  }

  /** Per title, a promotion is a release followed by the acceptance of one target. */
  lemma PromotionIsAReleasePerTitle(s: Store, id: TitleId, request: Request, released: Released)
    requires StoreOk(s) && id in Locked(s) && request.key !in s.operations
    ensures var (row, t) := (s.titles[id], s.titles[id].title);
            var eligible := IsEligible(row, request.trigger);
            var u := M.Step(t, M.Promote(VersionOf(released), eligible));
            && AppliedRow(s, id, request, released).title ==
                 (if eligible
                  then M.Step(u, M.Accept(CampaignOf(request.key),
                                          TargetFor(t.desired.value.revision, released, request.trigger, s.clock)))
                  else u)
            && M.Inv(AppliedRow(s, id, request, released).title)
  {
    var t := s.titles[id].title;
    var eligible := IsEligible(s.titles[id], request.trigger);
    var u := M.Step(t, M.Promote(VersionOf(released), eligible));
    hide M.Inv;
    M.StepKeeps(t, M.Promote(VersionOf(released), eligible));
    M.StepKeeps(u, M.Accept(CampaignOf(request.key),
                            TargetFor(t.desired.value.revision, released, request.trigger, s.clock)));
  }

  /** Exactly an accepted application of a key that is not on record writes, and puts it on record; dry runs,
  replays and refusals leave every row alone. */
  lemma OnlyTheFirstApplicationWrites(s: Store, request: Request, released: Released, readers: Capability,
      workers: Capability)
    ensures var (after, answer) := Promote(s, request, released, readers, workers);
            && (after != s <==> request.apply && answer.Success? && request.key !in s.operations)
            && (after != s ==> !answer.value.replay && request.key in after.operations)
            && (answer.Success? ==> (answer.value.replay <==> request.key in s.operations))
  {
    assert request.key in Applied(s, request, released).operations;
  }

  /** A key that was used with another trigger, or for another version, is a conflict whatever else holds. */
  lemma KeysAreBound(s: Store, request: Request, released: Released, readers: Capability, workers: Capability)
    requires request.key in s.operations
    requires s.operations[request.key].trigger != request.trigger
               || s.operations[request.key].version != VersionOf(released)
    ensures Promote(s, request, released, readers, workers) == (s, Failure(IdempotencyConflict))
  {
  }

  /** Readers and workers that a release can go to: there are some, and none that it would break. */
  predicate IsReady(readers: Capability, workers: Capability) {
    readers.compatible > 0 && readers.incompatible == 0 && workers.compatible > 0 && workers.incompatible == 0
  }

  /** Every answer, by what the transaction finds. A key on record is judged before anything else, the readers before
  the workers, and what is incompatible before what is missing. */
  lemma PromotionAnswers(s: Store, request: Request, released: Released, readers: Capability, workers: Capability)
    ensures var answer := Promote(s, request, released, readers, workers).1;
            var bound := request.key in s.operations;
            var conflict := bound && var op := s.operations[request.key];
                            op.trigger != request.trigger || op.version != VersionOf(released)
                            || op.endpoint != Endpoint(request.trigger);
            var few := |Targets(s, request.trigger)| <= MAX_TARGETS;
            && (answer == Failure(IdempotencyConflict) <==> conflict)
            && (answer == Failure(ReaderIncompatible) <==> !conflict && readers.incompatible > 0)
            && (answer == Failure(ReaderNotReady) <==> !conflict && readers == Capability(0, 0))
            && (answer == Failure(WorkerIncompatible) <==>
                  !conflict && readers.compatible > 0 && readers.incompatible == 0 && workers.incompatible > 0)
            && (answer == Failure(WorkerNotReady) <==>
                  !conflict && readers.compatible > 0 && readers.incompatible == 0 && workers == Capability(0, 0))
            && (answer == Failure(ReleaseStateMismatch) <==>
                  bound && !conflict && IsReady(readers, workers) && s.release != Some(VersionOf(released)))
            && (answer == Failure(ReleaseRowMissing) <==> !bound && IsReady(readers, workers) && s.release.None?)
            && (answer == Failure(NumericBound) <==>
                  !bound && IsReady(readers, workers) && s.release.Some? && request.apply && !few)
            && (answer.Success? <==>
                  && !conflict && IsReady(readers, workers)
                  && (if bound then s.release == Some(VersionOf(released))
                      else s.release.Some? && (request.apply ==> few)))
  {
    hide Endpoint, Targets, Applied, CampaignOf;
  }

  predicate Applies(s: Store, request: Request, released: Released, readers: Capability, workers: Capability) {
    request.apply && request.key !in s.operations && Promote(s, request, released, readers, workers).1.Success?
  }

  /** After an application the release row, every title and every queued job are on the released version;
  revisions and jobs that no longer wait are untouched. */
  lemma ApplyMovesEverything(s: Store, request: Request, released: Released, readers: Capability, workers: Capability,
      id: TitleId)
    requires Applies(s, request, released, readers, workers)
    ensures var after := Promote(s, request, released, readers, workers).0;
            && after.release == Some(VersionOf(released))
            && after.titles.Keys == s.titles.Keys && Locked(after) == Locked(s)
            && (id in Locked(s) ==>
                  var (t, u) := (s.titles[id].title, after.titles[id].title);
                  && u.desired == Some(M.Desired(t.desired.value.revision, VersionOf(released)))
                  && u.jobs.Keys == t.jobs.Keys
                  && forall j | j in t.jobs ::
                       if t.jobs[j].status.Queued?
                       then u.jobs[j].status.Queued? && u.jobs[j].version == VersionOf(released)
                              && u.jobs[j].revision == u.desired.value.revision
                       else u.jobs[j] == t.jobs[j])
  {
  }

  /** The new campaign has exactly the eligible titles as its pending targets, each asking for the released
  version of that title's revision, and each acceptable to the expansion. */
  lemma ApplyTargetsTheEligible(s: Store, request: Request, released: Released, readers: Capability,
      workers: Capability, id: TitleId)
    requires StoreOk(s) && Applies(s, request, released, readers, workers) && id in s.titles
    ensures var u := Promote(s, request, released, readers, workers).0.titles[id].title;
            var c := CampaignOf(request.key);
            && (c in u.targets <==>
                  && s.titles[id].title.desired.Some?
                  && (request.trigger.InitialBackfill? ==> s.titles[id].matches > 0 || s.titles[id].achievements > 0))
            && (c in u.targets ==>
                  && u.targets[c].status.TargetPending? && u.targets[c].version == VersionOf(released)
                  && u.desired == Some(M.Desired(u.targets[c].revision, VersionOf(released)))
                  && M.IsValidTarget(u.targets[c]) && u.pendingWork)
            && (forall d | d != c :: d in u.targets <==> d in s.titles[id].title.targets)
  {
    hide M.Inv, CampaignOf, Endpoint, C.NewRow, AppliedTitle, M.IsValidTarget;
    var t := s.titles[id].title;
    assert CampaignOf(request.key) !in t.targets;
    if id in Locked(s) {
      TargetOfTitle(t, request, released, IsEligible(s.titles[id], request.trigger), s.clock);
    }
  }

  lemma TargetOfTitle(t: M.Title, request: Request, released: Released, eligible: bool, now: int)
    requires t.desired.Some? && CampaignOf(request.key) !in t.targets
    ensures var (u, c) := (AppliedTitle(t, request, released, eligible, now), CampaignOf(request.key));
            && (c in u.targets <==> eligible)
            && (eligible ==>
                  && u.targets[c].status.TargetPending? && u.targets[c].version == VersionOf(released)
                  && u.desired == Some(M.Desired(u.targets[c].revision, VersionOf(released)))
                  && M.IsValidTarget(u.targets[c]) && u.pendingWork)
            && (forall d | d != c :: d in u.targets <==> d in t.targets)
  {
    hide CampaignOf;
  }

  /** The campaign row starts as the projection of its targets, ended if it has none. */
  lemma ApplyCreatesTheCampaign(s: Store, request: Request, released: Released, readers: Capability,
      workers: Capability)
    requires Applies(s, request, released, readers, workers)
    ensures var after := Promote(s, request, released, readers, workers).0;
            var (c, targets) := (CampaignOf(request.key), Targets(s, request.trigger));
            && after.campaigns == s.campaigns[c := C.NewRow(targets, s.clock)]
            && C.RowOk(after.campaigns[c], map t | t in targets :: C.Pending)
            && (after.campaigns[c].status.Terminal? <==> targets == {})
            && after.operations[request.key].targetCount == |targets|
  {
    PendingCampaignIsOk(Targets(s, request.trigger), s.clock);
  }

  lemma PendingCampaignIsOk(targets: set<TitleId>, now: int)
    ensures C.RowOk(C.NewRow(targets, now), map id | id in targets :: C.Pending)
  {
    var m: map<int, C.Status> := map id | id in targets :: C.Pending;
    assert m.Keys == targets && |m| == |m.Keys|;
    assert (set t | t in m && !m[t].Pending?) == {};
    assert (set t | t in m && C.IsTerminal(m[t])) == {};
    assert (set t | t in m && m[t].Failed?) == {};
    assert (set t | t in m && m[t].Skipped?) == {};
  }

  lemma ApplyKeeps(s: Store, request: Request, released: Released, readers: Capability, workers: Capability)
    requires StoreOk(s)
    ensures StoreOk(Promote(s, request, released, readers, workers).0)
  {
    var after := Promote(s, request, released, readers, workers).0;
    if after != s {
      hide M.Inv, M.Release;
      forall id | id in after.titles ensures M.Inv(after.titles[id].title) && after.titles[id].title.clock >= s.clock {
        if id in Locked(s) {
          PromotionIsAReleasePerTitle(s, id, request, released);
          ReleaseKeepsClock(s.titles[id].title, VersionOf(released), IsEligible(s.titles[id], request.trigger));
        }
      }
      forall key, id | key !in after.operations && id in after.titles
        ensures CampaignOf(key) !in after.titles[id].title.targets {
        CampaignsAreDistinct(key, request.key);
        if id in Locked(s) {
          ReleaseKeepsClock(s.titles[id].title, VersionOf(released), IsEligible(s.titles[id], request.trigger));
        }
      }
      forall key | key !in after.operations ensures CampaignOf(key) !in after.campaigns {
        CampaignsAreDistinct(key, request.key);
      }
    }
  }

  lemma ReleaseKeepsClock(t: M.Title, version: M.Version, eligible: bool)
    ensures M.Release(t, version, eligible).clock == t.clock && M.Release(t, version, eligible).targets == t.targets
  {
  }

  // ---------------------------------------------------------------- the statements

  /** The tables, as the statements of `apply_promotion` change them one after the other. */
  class Tables {
    var release: Option<M.Version>
    var titles: map<TitleId, Row>
    var artifacts: map<ArtifactId, Artifact>
    var operations: map<Key, Operation>
    var campaigns: map<M.CampaignId, C.Row>
    var clock: int

    ghost function View(): Store
      reads this
    {
      Store(release, titles, artifacts, operations, campaigns, clock)
    }

    constructor (s: Store)
      ensures View() == s
    {
      release, titles, artifacts := s.release, s.titles, s.artifacts;
      operations, campaigns, clock := s.operations, s.campaigns, s.clock;
    }

    /** `lock_targets`: the ids of all titles with a state row, and of the eligible ones. */
    method LockTargets(trigger: Trigger) returns (ids: set<TitleId>, targets: set<TitleId>)
      ensures ids == Locked(View()) && targets == Targets(View(), trigger)
    {
      ids := set id | id in titles && titles[id].title.desired.Some?;
      targets := set id | id in ids && IsEligible(titles[id], trigger);
    }

    /** `detach_unsupported_pointers.sql`. */
    method DetachPointers(ids: set<TitleId>, released: Released)
      modifies this`titles
      ensures titles.Keys == old(titles).Keys
      ensures forall id | id in titles ::
                if id in ids then IsDetached(artifacts, old(titles)[id], titles[id], released)
                else titles[id] == old(titles)[id]
    {
      titles := map id | id in titles :: if id in ids then Detached(artifacts, titles[id], released) else titles[id];
    }

    method AdvanceTitles(ids: set<TitleId>, targets: set<TitleId>, released: Released)
      modifies this`titles
      ensures titles.Keys == old(titles).Keys
      ensures forall id | id in titles ::
                if id in ids then IsAdvanced(old(titles)[id], titles[id], id in targets, released)
                else titles[id] == old(titles)[id]
    {
      titles := map id | id in titles :: if id in ids then Advanced(titles[id], id in targets, released)
                                         else titles[id];
    }

    /** Queued jobs take over what their title wants by now. */
    method AdvanceQueuedJobs(ids: set<TitleId>)
      modifies this`titles
      ensures titles.Keys == old(titles).Keys
      ensures forall id | id in titles ::
                if id in ids then IsRequeued(old(titles)[id], titles[id]) else titles[id] == old(titles)[id]
    {
      titles := map id | id in titles :: if id in ids then Requeued(titles[id]) else titles[id];
    }

    method InsertTargets(targets: set<TitleId>, request: Request, released: Released)
      requires forall id | id in targets :: id in titles && titles[id].title.desired.Some?
      modifies this`titles
      ensures titles.Keys == old(titles).Keys
      ensures forall id | id in titles ::
                if id in targets then IsTargeted(old(titles)[id], titles[id], request, released, clock)
                else titles[id] == old(titles)[id]
    {
      titles := map id | id in titles :: if id in targets then Targeted(titles[id], request, released, clock)
                                         else titles[id];
    }

    /** The updates of the locked titles, in their order, make one release of each. */
    method MoveTitles(ids: set<TitleId>, targets: set<TitleId>, released: Released)
      modifies this`titles
      ensures titles.Keys == old(titles).Keys
      ensures forall id | id in titles ::
                titles[id] == if id in ids then Moved(artifacts, old(titles)[id], id in targets, released)
                              else old(titles)[id]
    {
      hide IsDetached, IsAdvanced, IsRequeued;
      DetachPointers(ids, released);
      ghost var detached := titles;
      AdvanceTitles(ids, targets, released);
      ghost var advanced := titles;
      AdvanceQueuedJobs(ids);
      forall id | id in titles && id in ids
        ensures titles[id] == Moved(artifacts, old(titles)[id], id in targets, released) {
        UpdatesMoveTheRow(artifacts, old(titles)[id], detached[id], advanced[id], titles[id], id in targets, released);
      }
    }

    /** `apply_promotion`. */
    method ApplyPromotion(request: Request, released: Released) returns (error: Option<Error>)
      modifies this
      ensures error.Some? <==> |Targets(old(View()), request.trigger)| > MAX_TARGETS
      ensures error.None? ==> View() == Applied(old(View()), request, released)
      ensures error.Some? ==> View() == old(View()) && error == Some(NumericBound)
    {
      hide AppliedRow, Moved, IsTargeted, IsEligible;
      ghost var before := View();
      var ids, targets := LockTargets(request.trigger);
      if |targets| > MAX_TARGETS {
        return Some(NumericBound);
      }
      error := None;
      release := Some(VersionOf(released));
      MoveTitles(ids, targets, released);
      forall id | id in targets ensures titles[id].title.desired.Some? {
        MovedStaysWanted(artifacts, before.titles[id], id in targets, released);
      }
      ghost var moved := titles;
      operations := operations[request.key := Operation(Endpoint(request.trigger), request.trigger, VersionOf(released),
                                                        CampaignOf(request.key), |targets|)];
      campaigns := campaigns[CampaignOf(request.key) := C.NewRow(targets, clock)];
      InsertTargets(targets, request, released);
      forall id | id in titles ensures titles[id] == AppliedRow(before, id, request, released) {
        StatementsMakeTheRow(before, id, request, released, titles[id]);
      }
      assert titles == Applied(before, request, released).titles;
    }

    /** `promote_transaction`: a refused or dry run leaves the tables as they were. */
    method PromoteTransaction(request: Request, released: Released, readers: Capability, workers: Capability)
      returns (answer: Result<Report, Error>)
      modifies this
      ensures (View(), answer) == Promote(old(View()), request, released, readers, workers)
    {
      var capable := ValidateCapabilities(readers, workers);
      if request.key in operations {
        var existing := operations[request.key];
        if !SameParameters(existing, request, released) {
          return Failure(IdempotencyConflict);
        }
        if capable.Some? {
          return Failure(capable.value);
        }
        if release != Some(VersionOf(released)) {
          return Failure(ReleaseStateMismatch);
        }
        return Success(Report(request.apply, existing.campaign, existing.targetCount, true));
      }
      if capable.Some? {
        return Failure(capable.value);
      }
      if release.None? {
        return Failure(ReleaseRowMissing);
      }
      var _, targets := LockTargets(request.trigger);
      if request.apply {
        var error := ApplyPromotion(request, released);
        if error.Some? {
          return Failure(error.value);
        }
      }
      return Success(Report(request.apply, CampaignOf(request.key), |targets|, false));
    }
  }

  // What each statement is for, and how it changes one row.

  /** Unsupported pointers are gone, supported ones are kept, and no other column changes. */
  predicate IsDetached(artifacts: map<ArtifactId, Artifact>, was: Row, now: Row, released: Released) {
    && now == was.(current := now.current, previous := now.previous)
    && IsKeptIfSupported(artifacts, was.current, now.current, released)
    && IsKeptIfSupported(artifacts, was.previous, now.previous, released)
  }

  predicate IsKeptIfSupported(artifacts: map<ArtifactId, Artifact>, was: Option<ArtifactId>, now: Option<ArtifactId>,
      released: Released) {
    && (now.Some? ==> now == was && Supported(artifacts, now.value, released))
    && (was.Some? && Supported(artifacts, was.value, released) ==> now == was)
  }

  /** A title with a state row wants its revision in the released version, and a target has work; no other
  column changes. */
  predicate IsAdvanced(was: Row, now: Row, target: bool, released: Released) {
    && now == was.(title := was.title.(desired := now.title.desired, pendingWork := now.title.pendingWork))
    && (was.title.desired.None? ==> now == was)
    && (was.title.desired.Some? ==>
          && now.title.desired == Some(M.Desired(was.title.desired.value.revision, VersionOf(released)))
          && (now.title.pendingWork <==> was.title.pendingWork || target))
  }

  /** Exactly the queued jobs are of what the title wants, and are otherwise the same jobs. */
  predicate IsRequeued(was: Row, now: Row) {
    && now == was.(title := was.title.(jobs := now.title.jobs)) && now.title.jobs.Keys == was.title.jobs.Keys
    && forall j | j in was.title.jobs ::
         var (job, next) := (was.title.jobs[j], now.title.jobs[j]);
         if job.status.Queued? && was.title.desired.Some?
         then M.SameJob(job, next) && M.Desired(next.revision, next.version) == was.title.desired.value
         else next == job
  }

  /** The title has one more target, pending, for its revision in the released version; earlier ones stay. */
  predicate IsTargeted(was: Row, now: Row, request: Request, released: Released, at: int) {
    var c := CampaignOf(request.key);
    && now == was.(title := was.title.(targets := now.title.targets)) && was.title.desired.Some?
    && now.title.targets.Keys == was.title.targets.Keys + {c}
    && (forall d | d in was.title.targets && d != c :: now.title.targets[d] == was.title.targets[d])
    && now.title.targets[c].status.TargetPending? && now.title.targets[c].accepted == at
    && M.Desired(now.title.targets[c].revision, now.title.targets[c].version)
         == M.Desired(was.title.desired.value.revision, VersionOf(released))
    && now.title.targets[c].trigger == Wire(request.trigger) && now.title.targets[c].campaign == VersionOf(released)
  }

  /** A row after the three updates: released as one title, with the supported pointers only. */
  function Moved(artifacts: map<ArtifactId, Artifact>, row: Row, target: bool, released: Released): Row {
    row.(title := M.Release(row.title, VersionOf(released), target),
         current := Detach(artifacts, row.current, released), previous := Detach(artifacts, row.previous, released))
  }

  lemma UpdatesMoveTheRow(artifacts: map<ArtifactId, Artifact>, was: Row, detached: Row, advanced: Row, now: Row,
      target: bool, released: Released)
    requires IsDetached(artifacts, was, detached, released)
    requires IsAdvanced(detached, advanced, target, released)
    requires IsRequeued(advanced, now)
    ensures now == Moved(artifacts, was, target, released)
  {
    var jobs := M.Release(was.title, VersionOf(released), target).jobs;
    assert now.title.jobs == jobs;
  }

  lemma MovedStaysWanted(artifacts: map<ArtifactId, Artifact>, row: Row, target: bool, released: Released)
    ensures Moved(artifacts, row, target, released).title.desired.Some? <==> row.title.desired.Some?
  {
  }

  function Detached(artifacts: map<ArtifactId, Artifact>, row: Row, released: Released): Row {
    row.(current := Detach(artifacts, row.current, released), previous := Detach(artifacts, row.previous, released))
  }

  function Advanced(row: Row, target: bool, released: Released): Row {
    if row.title.desired.None? then row
    else row.(title := row.title.(desired := Some(row.title.desired.value.(version := VersionOf(released))),
                                  pendingWork := row.title.pendingWork || target))
  }

  function Requeued(row: Row): Row {
    if row.title.desired.None? then row
    else row.(title := row.title.(jobs := map j | j in row.title.jobs ::
                if row.title.jobs[j].status.Queued? then M.RefreshJob(row.title.jobs[j], row.title.desired.value)
                else row.title.jobs[j]))
  }

  function Targeted(row: Row, request: Request, released: Released, now: int): Row {
    if row.title.desired.None? then row
    else row.(title := row.title.(targets := row.title.targets[CampaignOf(request.key) :=
                TargetFor(row.title.desired.value.revision, released, request.trigger, now)]))
  }

  /** The statements on one title, taken together. */
  lemma StatementsMakeTheRow(s: Store, id: TitleId, request: Request, released: Released, now: Row)
    requires id in s.titles
    requires var (row, eligible) := (s.titles[id], IsEligible(s.titles[id], request.trigger));
             var moved := Moved(s.artifacts, row, eligible, released);
             if id !in Locked(s) then now == row
             else if eligible then IsTargeted(moved, now, request, released, s.clock)
             else now == moved
    ensures now == AppliedRow(s, id, request, released)
  {
    hide CampaignOf;
    var (row, eligible) := (s.titles[id], IsEligible(s.titles[id], request.trigger));
    if id in Locked(s) && eligible {
      var moved := Moved(s.artifacts, row, eligible, released);
      var c := CampaignOf(request.key);
      assert now.title.targets == moved.title.targets[c := TargetFor(row.title.desired.value.revision, released,
                                                                     request.trigger, s.clock)];
    }
  }
}
