/** How long, exactly, a promotion stays idempotent.

Between a promotion and its replay there may be any number of other promotions, by any builds, any other work on
titles and campaigns, and the cleanup of history, which forgets operations that ended long ago. */
module PromotionReplay {
  import opened Wrappers
  import opened P = Promotion
  import C = Campaign
  import M = Materialization

  /** 45 days, in seconds of the database clock. */
  const RETENTION: int := 45 * 24 * 60 * 60

  datatype Event =
    | Ask(request: Request, released: Released, readers: Capability, workers: Capability)
    | Prune(keys: set<Key>)
    | Elsewhere(titles: map<TitleId, Row>, artifacts: map<ArtifactId, Artifact>, campaigns: map<M.CampaignId, C.Row>,
                clock: int)

  /** What `cleanup_history` may choose. */
  predicate IsOld(s: Store, key: Key) {
    && key in s.operations && CampaignOf(key) in s.campaigns
    && var row := s.campaigns[CampaignOf(key)];
       row.opTerminal && row.opFinished.Some? && row.opFinished.value < s.clock - RETENTION
  }

  /** A title without the targets and requests of deleted campaigns. */
  function Forgotten(row: Row, gone: set<M.CampaignId>): Row {
    var t := row.title;
    row.(title := t.(targets := t.targets - gone,
                     requests := map q | q in t.requests && !(q.ForCampaign? && q.campaign in gone) :: t.requests[q]))
  }

  /** Deleting an operation deletes its campaign with all that belongs to it. */
  function Pruned(s: Store, keys: set<Key>): Store {
    var expired := set key | key in keys && IsOld(s, key);
    var gone := set key | key in expired :: CampaignOf(key);
    s.(operations := s.operations - expired, campaigns := s.campaigns - gone,
       titles := map id | id in s.titles :: Forgotten(s.titles[id], gone))
  }

  /** Exactly the expired operations among the chosen ones go, with their campaigns and with the targets and requests
  of these; everything else stays. */
  lemma PruneForgets(s: Store, keys: set<Key>)
    ensures var t := Pruned(s, keys);
            && (forall key :: key in t.operations <==> key in s.operations && !(key in keys && IsOld(s, key)))
            && (forall key | key in t.operations :: t.operations[key] == s.operations[key])
            && (forall key | key in keys && IsOld(s, key) :: CampaignOf(key) !in t.campaigns)
            && (forall c | c in s.campaigns && !(exists key :: key in keys && IsOld(s, key) && c == CampaignOf(key)) ::
                  c in t.campaigns && t.campaigns[c] == s.campaigns[c])
            && t.release == s.release && t.clock == s.clock && t.artifacts == s.artifacts
                 && t.titles.Keys == s.titles.Keys
    ensures forall id | id in s.titles :: OnlyTheirsGo(s, keys, s.titles[id].title, Pruned(s, keys).titles[id].title)
  {
    hide IsOld, CampaignOf;
  }

  ghost predicate IsGone(s: Store, keys: set<Key>, c: M.CampaignId) {
    exists key :: key in keys && IsOld(s, key) && c == CampaignOf(key)
  }

  ghost predicate OnlyTheirsGo(s: Store, keys: set<Key>, was: M.Title, now: M.Title) {
    && now == was.(targets := now.targets, requests := now.requests)
    && (forall c :: c in now.targets <==> c in was.targets && !IsGone(s, keys, c))
    && (forall c | c in now.targets :: now.targets[c] == was.targets[c])
    && (forall q :: q in now.requests <==> q in was.requests && !(q.ForCampaign? && IsGone(s, keys, q.campaign)))
    && (forall q | q in now.requests :: now.requests[q] == was.requests[q])
  }

  /** Other transactions end campaigns, but do not delete them or change how they ended. */
  predicate Follows(was: C.Row, row: C.Row, now: int) {
    if was.opFinished.Some? then row.opFinished == was.opFinished
    else row.opFinished.Some? ==> row.opFinished.value >= now
  }

  ghost predicate IsPlausible(s: Store, campaigns: map<M.CampaignId, C.Row>, clock: int) {
    && s.clock <= clock
    && forall c | c in s.campaigns :: c in campaigns && Follows(s.campaigns[c], campaigns[c], s.clock)
  }

  ghost function Step(s: Store, e: Event): Store {
    match e
    case Ask(request, released, readers, workers) => Promote(s, request, released, readers, workers).0
    case Prune(keys) => Pruned(s, keys)
    case Elsewhere(titles, artifacts, campaigns, clock) =>
      if IsPlausible(s, campaigns, clock)
      then s.(titles := titles, artifacts := artifacts, campaigns := campaigns, clock := clock) else s
  }

  ghost function Run(s: Store, es: seq<Event>): Store
    decreases es
  {
    if es == [] then s else Run(Step(s, es[0]), es[1..])
  }

  lemma NoEvents(s: Store)
    ensures Run(s, []) == s
  {
  }

  lemma {:induction false} RunAppends(s: Store, es: seq<Event>, fs: seq<Event>)
    ensures Run(s, es + fs) == Run(Run(s, es), fs)
    decreases es
  {
    hide Step;
    if es == [] {
      assert es + fs == fs;
    } else {
      assert (es + fs)[1..] == es[1..] + fs;
      RunAppends(Step(s, es[0]), es[1..], fs);
    }
  }

  /** One moment of a run to the next. */
  lemma NextMoment(s: Store, es: seq<Event>, i: nat)
    requires i < |es|
    ensures Run(s, es[..i + 1]) == Step(Run(s, es[..i]), es[i])
  {
    hide Step;
    assert es[..i + 1] == es[..i] + [es[i]] && [es[i]][1..] == [];
    RunAppends(s, es[..i], [es[i]]);
    assert Run(Run(s, es[..i]), [es[i]]) == Run(Step(Run(s, es[..i]), es[i]), []);
  }

  // ---------------------------------------------------------------- what the store remembers

  /** A cleanup that chooses the key while its campaign has ended long enough before. */
  predicate Forgets(s: Store, e: Event, key: Key) { e.Prune? && key in e.keys && IsOld(s, key) }

  ghost predicate IsForgotten(s: Store, es: seq<Event>, key: Key) {
    exists i :: 0 <= i < |es| && Forgets(Run(s, es[..i]), es[i], key)
  }

  /** The operation of `key` is on record, with its campaign. */
  predicate OnRecord(s: Store, key: Key, op: Operation) {
    key in s.operations && s.operations[key] == op && CampaignOf(key) in s.campaigns
  }

  lemma StepKeepsRecord(s: Store, e: Event, key: Key, op: Operation)
    requires OnRecord(s, key, op)
    ensures if Forgets(s, e, key) then key !in Step(s, e).operations else OnRecord(Step(s, e), key, op)
  {
    if e.Prune? {
      forall other | other in e.keys && IsOld(s, other) && other != key ensures CampaignOf(other) != CampaignOf(key) {
        CampaignsAreDistinct(key, other);
      }
      hide CampaignOf, IsOld;
    } else if e.Ask? {
      CampaignsAreDistinct(key, e.request.key);
      hide CampaignOf;
    }
  }

  lemma {:induction false} RecordStays(s: Store, es: seq<Event>, key: Key, op: Operation, i: nat)
    requires OnRecord(s, key, op) && !IsForgotten(s, es, key) && i <= |es|
    ensures OnRecord(Run(s, es[..i]), key, op)
    decreases i
  {
    hide Run, Step, OnRecord, Forgets;
    if i == 0 {
      assert es[..0] == [];
      NoEvents(s);
    } else {
      RecordStays(s, es, key, op, i - 1);
      NextMoment(s, es, i - 1);
      assert !Forgets(Run(s, es[..i - 1]), es[i - 1], key);
      StepKeepsRecord(Run(s, es[..i - 1]), es[i - 1], key, op);
    }
  }

  /** A key stays on record, with the same operation, at every moment of a run exactly if no cleanup of the run
  chose it while its campaign had ended more than the retention time before. */
  lemma OnRecordIffNotForgotten(s: Store, es: seq<Event>, key: Key, op: Operation)
    requires OnRecord(s, key, op)
    ensures (forall i | 0 <= i <= |es| :: key in Run(s, es[..i]).operations) <==> !IsForgotten(s, es, key)
    ensures !IsForgotten(s, es, key) ==> forall i | 0 <= i <= |es| :: OnRecord(Run(s, es[..i]), key, op)
  {
    hide Run, Step;
    if IsForgotten(s, es, key) {
      var i := ForgottenMoment(s, es, key);
      assert key !in Run(s, es[..i]).operations;
    } else {
      forall i | 0 <= i <= |es| ensures OnRecord(Run(s, es[..i]), key, op) {
        RecordStays(s, es, key, op, i);
      }
    }
  }

  /** Right after a cleanup has forgotten the key it is off the record. */
  lemma ForgottenMoment(s: Store, es: seq<Event>, key: Key) returns (i: nat)
    requires IsForgotten(s, es, key)
    ensures 0 < i <= |es| && key !in Run(s, es[..i]).operations
  {
    hide Run;
    var k :| 0 <= k < |es| && Forgets(Run(s, es[..k]), es[k], key);
    NextMoment(s, es, k);
    i := k + 1;
  }

  // ---------------------------------------------------------------- the retention time

  /** The campaign of `key` has not ended before `since`. */
  ghost predicate EndsFrom(s: Store, key: Key, since: int) {
    && since <= s.clock && CampaignOf(key) in s.campaigns
    && (s.campaigns[CampaignOf(key)].opFinished.Some? ==> since <= s.campaigns[CampaignOf(key)].opFinished.value)
  }

  lemma StepKeepsEnd(s: Store, e: Event, key: Key, op: Operation, since: int)
    requires OnRecord(s, key, op) && EndsFrom(s, key, since) && s.clock <= since + RETENTION
    ensures OnRecord(Step(s, e), key, op) && EndsFrom(Step(s, e), key, since)
  {
    assert !Forgets(s, e, key);
    StepKeepsRecord(s, e, key, op);
    if e.Ask? {
      CampaignsAreDistinct(key, e.request.key);
    }
    hide CampaignOf, IsOld;
  }

  lemma ClockRises(s: Store, e: Event)
    ensures s.clock <= Step(s, e).clock
  {
  }

  lemma {:induction false} ClockNeverFalls(s: Store, es: seq<Event>)
    ensures s.clock <= Run(s, es).clock
    decreases es
  {
    hide Step;
    if es != [] {
      ClockRises(s, es[0]);
      ClockNeverFalls(Step(s, es[0]), es[1..]);
    }
  }

  /** No cleanup forgets a key before the retention time after the end of its campaign has passed. */
  lemma {:induction false} RetentionKeeps(s: Store, es: seq<Event>, key: Key, op: Operation, since: int)
    requires OnRecord(s, key, op) && EndsFrom(s, key, since) && Run(s, es).clock <= since + RETENTION
    ensures OnRecord(Run(s, es), key, op) && EndsFrom(Run(s, es), key, since)
    decreases es
  {
    hide OnRecord, EndsFrom, Step;
    if es != [] {
      ClockNeverFalls(s, es);
      StepKeepsEnd(s, es[0], key, op, since);
      RetentionKeeps(Step(s, es[0]), es[1..], key, op, since);
    }
  }

  /** A run in which the campaign of `key` ends, if it has not ended yet, and the cleanup comes as early as it may. */
  function ForgettingRun(s: Store, key: Key): seq<Event>
    requires CampaignOf(key) in s.campaigns
  {
    var row := s.campaigns[CampaignOf(key)];
    var at := if row.opFinished.Some? then row.opFinished.value else s.clock;
    var ended := row.(opTerminal := true, opFinished := Some(at));
    [Elsewhere(s.titles, s.artifacts, s.campaigns[CampaignOf(key) := ended], ForgottenAt(s, key)), Prune({key})]
  }

  function ForgottenAt(s: Store, key: Key): int
    requires CampaignOf(key) in s.campaigns
  {
    var row := s.campaigns[CampaignOf(key)];
    var at := (if row.opFinished.Some? then row.opFinished.value else s.clock) + RETENTION + 1;
    if at < s.clock then s.clock else at
  }

  /** Which titles are targets depends on few columns only. */
  lemma SameTargets(s: Store, t: Store, trigger: Trigger)
    requires t.titles.Keys == s.titles.Keys
    requires forall id | id in s.titles ::
               && (t.titles[id].title.desired.Some? <==> s.titles[id].title.desired.Some?)
               && t.titles[id].matches == s.titles[id].matches && t.titles[id].achievements == s.titles[id].achievements
    ensures Targets(t, trigger) == Targets(s, trigger)
  {
    forall id
      ensures id in Locked(t) <==> id in Locked(s)
      ensures id in Targets(t, trigger) <==> id in Targets(s, trigger)
    {
      assert id in t.titles <==> id in t.titles.Keys;
    }
  }

  /** Every key can be forgotten, a moment after the retention time and without any promotion. */
  lemma EveryKeyCanBeForgotten(s: Store, key: Key, op: Operation, trigger: Trigger)
    requires OnRecord(s, key, op)
    ensures var u := Run(s, ForgettingRun(s, key));
            && key !in u.operations && u.clock == ForgottenAt(s, key) && u.release == s.release
            && Targets(u, trigger) == Targets(s, trigger)
  {
    var es := ForgettingRun(s, key);
    assert es == [es[0], es[1]] && es[1..] == [es[1]] && es[1..][1..] == [];
    var t := Step(s, es[0]);
    assert forall c | c in s.campaigns :: Follows(s.campaigns[c], es[0].campaigns[c], s.clock);
    assert t == s.(campaigns := es[0].campaigns, clock := ForgottenAt(s, key));
    assert IsOld(t, key);
    assert Run(s, es) == Run(t, es[1..]) == Run(Pruned(t, {key}), []) == Pruned(t, {key});
    SameTargets(s, Pruned(t, {key}), trigger);
  }

  // ---------------------------------------------------------------- the release row

  predicate IsApplied(s: Store, e: Event) {
    e.Ask? && Applies(s, e.request, e.released, e.readers, e.workers)
  }

  /** The version of the last application in a run. */
  ghost function LastApplied(s: Store, es: seq<Event>): Option<M.Version>
    decreases es
  {
    if es == [] then None
    else
      var later := LastApplied(Step(s, es[0]), es[1..]);
      if later.Some? then later else if IsApplied(s, es[0]) then Some(VersionOf(es[0].released)) else None
  }

  lemma StepMovesTheRelease(s: Store, e: Event)
    ensures Step(s, e).release == if IsApplied(s, e) then Some(VersionOf(e.released)) else s.release
  {
  }

  lemma {:induction false} ReleaseIsTheLastApplied(s: Store, es: seq<Event>)
    ensures Run(s, es).release == var last := LastApplied(s, es); if last.Some? then last else s.release
    decreases es
  {
    hide Step, IsApplied;
    if es != [] {
      StepMovesTheRelease(s, es[0]);
      ReleaseIsTheLastApplied(Step(s, es[0]), es[1..]);
    }
  }

  // ---------------------------------------------------------------- replays

  /** What a replay is answered, given the version of the last application since, if there was one. */
  function ReplayAnswer(first: Request, released: Released, count: nat, last: Option<M.Version>,
                        again: Request, build: Released, readers: Capability, workers: Capability)
    : Result<Report, Error>
  {
    if again.trigger != first.trigger || VersionOf(build) != VersionOf(released) then Failure(IdempotencyConflict)
    else if ValidateCapabilities(readers, workers).Some? then Failure(ValidateCapabilities(readers, workers).value)
    else if last.Some? && last != Some(VersionOf(released)) then Failure(ReleaseStateMismatch)
    else Success(Report(again.apply, CampaignOf(first.key), count, true))
  }

  /** A replay by anybody, in any form, changes nothing and gets the answer above. */
  ghost predicate IsAnswered(t: Store, first: Request, released: Released, count: nat, last: Option<M.Version>) {
    forall again: Request, build: Released, readers: Capability, workers: Capability | again.key == first.key ::
      Promote(t, again, build, readers, workers)
        == (t, ReplayAnswer(first, released, count, last, again, build, readers, workers))
  }

  /** The operation that an application puts on record. */
  function OperationOf(s: Store, first: Request, released: Released): Operation {
    Operation(Endpoint(first.trigger), first.trigger, VersionOf(released), CampaignOf(first.key),
              |Targets(s, first.trigger)|)
  }

  lemma ApplicationIsRecorded(s: Store, first: Request, released: Released, readers: Capability, workers: Capability)
    requires Applies(s, first, released, readers, workers)
    ensures var (after, answer) := Promote(s, first, released, readers, workers);
            && OnRecord(after, first.key, OperationOf(s, first, released)) && EndsFrom(after, first.key, s.clock)
            && after.clock == s.clock && after.release == Some(VersionOf(released))
            && after.campaigns[CampaignOf(first.key)].opFinished in {None, Some(s.clock)}
            && answer == Success(Report(true, CampaignOf(first.key), |Targets(s, first.trigger)|, false))
  {
  }

  /** What is on record is answered; a key off the record is not. */
  lemma RecordAnswers(s: Store, first: Request, released: Released, t: Store, last: Option<M.Version>)
    requires first.key in t.operations ==> t.operations[first.key] == OperationOf(s, first, released)
    requires t.release == if last.Some? then last else Some(VersionOf(released))
    ensures IsAnswered(t, first, released, |Targets(s, first.trigger)|, last) <==> first.key in t.operations
  {
    if first.key !in t.operations {
      var trigger := if first.trigger.InitialBackfill? then AlgorithmUpdate else InitialBackfill;
      var other := Request(first.key, trigger, false);
      assert Promote(t, other, released, Capability(1, 0), Capability(1, 0)).1 != Failure(IdempotencyConflict);
    }
    hide CampaignOf, Applied;
  }

  /** Over any run after an application, every replay at every moment is answered from the original record and
  changes nothing, exactly if no cleanup of the run chose the key while its campaign had ended more than the
  retention time before. The same trigger and build get the same campaign and count, or a mismatch exactly if a
  promotion of another version was the last one applied since; any other parameters are a conflict. */
  lemma ReplayedIffNotForgotten(s: Store, first: Request, released: Released, readers: Capability, workers: Capability,
                                es: seq<Event>)
    requires Applies(s, first, released, readers, workers)
    ensures var (after, answer) := Promote(s, first, released, readers, workers);
            (forall i | 0 <= i <= |es| ::
               IsAnswered(Run(after, es[..i]), first, released, answer.value.targetCount, LastApplied(after, es[..i])))
            <==> !IsForgotten(after, es, first.key)
  {
    var after := Promote(s, first, released, readers, workers).0;
    var op := OperationOf(s, first, released);
    ApplicationIsRecorded(s, first, released, readers, workers);
    hide Promote, Run, LastApplied, IsAnswered, OperationOf, CampaignOf;
    if IsForgotten(after, es, first.key) {
      var i := ForgottenMoment(after, es, first.key);
      ReleaseIsTheLastApplied(after, es[..i]);
      RecordAnswers(s, first, released, Run(after, es[..i]), LastApplied(after, es[..i]));
    } else {
      forall i | 0 <= i <= |es|
        ensures IsAnswered(Run(after, es[..i]), first, released, |Targets(s, first.trigger)|,
                           LastApplied(after, es[..i]))
      {
        RecordStays(after, es, first.key, op, i);
        ReleaseIsTheLastApplied(after, es[..i]);
        RecordAnswers(s, first, released, Run(after, es[..i]), LastApplied(after, es[..i]));
      }
    }
  }

  /** Counted from the end of the campaign: whatever came before, if the key is on record and its campaign has not
  ended before `since`, replays are answered until the retention time after `since` has passed. */
  lemma ReplayUntilRetentionAfterTheEnd(s: Store, first: Request, released: Released,
                                        readers: Capability, workers: Capability,
                                        es: seq<Event>, more: seq<Event>, since: int)
    requires Applies(s, first, released, readers, workers)
    requires !IsForgotten(Promote(s, first, released, readers, workers).0, es, first.key)
    requires var t := Run(Promote(s, first, released, readers, workers).0, es);
             EndsFrom(t, first.key, since) && Run(t, more).clock <= since + RETENTION
    ensures var (after, answer) := Promote(s, first, released, readers, workers);
            IsAnswered(Run(after, es + more), first, released, answer.value.targetCount, LastApplied(after, es + more))
  {
    var after := Promote(s, first, released, readers, workers).0;
    var op := OperationOf(s, first, released);
    ApplicationIsRecorded(s, first, released, readers, workers);
    hide Promote, Run, LastApplied, IsAnswered, OperationOf, CampaignOf, EndsFrom;
    RecordStays(after, es, first.key, op, |es|);
    assert es[..|es|] == es;
    RetentionKeeps(Run(after, es), more, first.key, op, since);
    RunAppends(after, es, more);
    ReleaseIsTheLastApplied(after, es + more);
    RecordAnswers(s, first, released, Run(after, es + more), LastApplied(after, es + more));
  }

  /** Counted from the application, which is all that the caller of a retry knows: a delay is safe on every run
  exactly if it does not exceed the retention time. */
  lemma SafeDelay(s: Store, first: Request, released: Released, readers: Capability, workers: Capability, delay: int)
    requires Applies(s, first, released, readers, workers)
    ensures var (after, answer) := Promote(s, first, released, readers, workers);
            (forall es: seq<Event> | Run(after, es).clock <= s.clock + delay ::
               IsAnswered(Run(after, es), first, released, answer.value.targetCount, LastApplied(after, es)))
            <==> delay <= RETENTION
  {
    var after := Promote(s, first, released, readers, workers).0;
    var op := OperationOf(s, first, released);
    ApplicationIsRecorded(s, first, released, readers, workers);
    hide Promote, Run, LastApplied, IsAnswered, OperationOf, CampaignOf, EndsFrom;
    if delay <= RETENTION {
      forall es: seq<Event> | Run(after, es).clock <= s.clock + delay
        ensures IsAnswered(Run(after, es), first, released, |Targets(s, first.trigger)|, LastApplied(after, es))
      {
        RetentionKeeps(after, es, first.key, op, s.clock);
        ReleaseIsTheLastApplied(after, es);
        RecordAnswers(s, first, released, Run(after, es), LastApplied(after, es));
      }
    } else {
      var es := ForgettingRun(after, first.key);
      EveryKeyCanBeForgotten(after, first.key, op, first.trigger);
      assert Run(after, es).clock <= s.clock + delay;
      ReleaseIsTheLastApplied(after, es);
      RecordAnswers(s, first, released, Run(after, es), LastApplied(after, es));
    }
  }

  // ---------------------------------------------------------------- after the cleanup

  /** A forgotten key is a new key: after any run of any application, the same request writes again exactly if its
  key is off the record, wherever readers and workers are capable and the targets can be counted. */
  lemma AForgottenKeyAppliesAgain(s: Store, first: Request, released: Released,
                                  readers: Capability, workers: Capability,
                                  es: seq<Event>, readersThen: Capability, workersThen: Capability)
    requires Applies(s, first, released, readers, workers) && ValidateCapabilities(readersThen, workersThen).None?
    requires |Targets(Run(Promote(s, first, released, readers, workers).0, es), first.trigger)| <= MAX_TARGETS
    ensures var t := Run(Promote(s, first, released, readers, workers).0, es);
            var (after, answer) := Promote(t, first, released, readersThen, workersThen);
            && (after != t <==> first.key !in t.operations)
            && (after != t ==>
                  && answer == Success(Report(true, CampaignOf(first.key), |Targets(t, first.trigger)|, false))
                  && after.release == Some(VersionOf(released)))
  {
    var start := Promote(s, first, released, readers, workers).0;
    ApplicationIsRecorded(s, first, released, readers, workers);
    ReleaseIsTheLastApplied(start, es);
    var t := Run(start, es);
    OnlyTheFirstApplicationWrites(t, first, released, readersThen, workersThen);
    hide Run, LastApplied, CampaignOf;
  }

  lemma TargetsStay(s: Store, request: Request, released: Released, trigger: Trigger)
    ensures Targets(Applied(s, request, released), trigger) == Targets(s, trigger)
  {
    forall id | id in s.titles
      ensures Applied(s, request, released).titles[id] == AppliedRow(s, id, request, released)
    {
    }
    SameTargets(s, Applied(s, request, released), trigger);
  }

  lemma RetryIsAnswered(t: Store, first: Request, v: Released, readers: Capability, workers: Capability, op: Operation)
    requires ValidateCapabilities(readers, workers).None? && first.apply && t.release.Some?
    requires OnRecord(t, first.key, op) ==> SameParameters(op, first, v)
    requires |Targets(t, first.trigger)| <= MAX_TARGETS
    ensures OnRecord(t, first.key, op) && t.release != Some(VersionOf(v)) ==>
              Promote(t, first, v, readers, workers) == (t, Failure(ReleaseStateMismatch))
    ensures first.key !in t.operations ==> Promote(t, first, v, readers, workers).0.release == Some(VersionOf(v))
  {
  }

  /** After a promotion of another version, a late retry of the first one by its old build is refused while its key
  is on record. There is a run without any promotion after which the same retry turns the release back. */
  lemma ALateRetryTurnsTheReleaseBack(s: Store, first: Request, v: Released, readers: Capability, workers: Capability,
                                      second: Request, w: Released, readersThen: Capability, workersThen: Capability)
    returns (es: seq<Event>)
    requires Applies(s, first, v, readers, workers) && VersionOf(w) != VersionOf(v)
    requires Applies(Promote(s, first, v, readers, workers).0, second, w, readersThen, workersThen)
    ensures var t := Promote(Promote(s, first, v, readers, workers).0, second, w, readersThen, workersThen).0;
            && (forall e | e in es :: !e.Ask?)
            && t.release == Run(t, es).release == Some(VersionOf(w))
            && Promote(t, first, v, readers, workers) == (t, Failure(ReleaseStateMismatch))
            && Promote(Run(t, es), first, v, readers, workers).0.release == Some(VersionOf(v))
  {
    var after := Promote(s, first, v, readers, workers).0;
    var t := Promote(after, second, w, readersThen, workersThen).0;
    var op := OperationOf(s, first, v);
    ApplicationIsRecorded(s, first, v, readers, workers);
    ApplicationIsRecorded(after, second, w, readersThen, workersThen);
    TargetsStay(s, first, v, first.trigger);
    TargetsStay(after, second, w, first.trigger);
    assert OnRecord(t, first.key, op) by {
      CampaignsAreDistinct(first.key, second.key);
      hide CampaignOf;
    }
    EveryKeyCanBeForgotten(t, first.key, op, first.trigger);
    es := ForgettingRun(t, first.key);
    var u := Run(t, es);
    hide Run, CampaignOf;
    assert ValidateCapabilities(readers, workers).None? && |Targets(s, first.trigger)| <= MAX_TARGETS;
    assert |Targets(t, first.trigger)| <= MAX_TARGETS by {
      assert after == Applied(s, first, v) && t == Applied(after, second, w);
      hide Applied;
    }
    RetryIsAnswered(t, first, v, readers, workers, op);
    RetryIsAnswered(u, first, v, readers, workers, op);
    hide Promote, Applied, OperationOf;
  }
}
