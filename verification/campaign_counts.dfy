/** What the four counters of a campaign count, one target at a time. */
module CampaignCounts {
  import opened Wrappers
  import opened Campaign

  /** What one target adds to the counters. */
  function Weight(s: Status): Counts {
    match s
    case Pending => Counts(0, 0, 0, 0)
    case Expanded => Counts(1, 0, 0, 0)
    case Succeeded => Counts(1, 1, 0, 0)
    case Failed => Counts(1, 1, 1, 0)
    case Skipped => Counts(1, 1, 0, 1)
  }

  function Plus(a: Counts, b: Counts): Counts {
    Counts(a.expanded + b.expanded, a.terminal + b.terminal, a.failed + b.failed, a.skipped + b.skipped)
  }

  /** The counters, target by target. */
  ghost function Tally(targets: map<int, Status>): Counts
    decreases targets.Keys
  {
    if exists t :: t in targets then
      var t :| t in targets;
      assert (targets - {t}).Keys == targets.Keys - {t};
      Plus(Tally(targets - {t}), Weight(targets[t]))
    else Counts(0, 0, 0, 0)
  }

  /** The targets of one kind. */
  function Having(targets: map<int, Status>, kind: Status -> bool): set<int> {
    set t | t in targets && kind(targets[t])
  }

  /** The four counters count these kinds. */
  lemma CountsByKind(targets: map<int, Status>)
    ensures CountsOf(targets) ==
              Counts(|Having(targets, (s: Status) => !s.Pending?)|, |Having(targets, IsTerminal)|,
                     |Having(targets, (s: Status) => s.Failed?)|, |Having(targets, (s: Status) => s.Skipped?)|)
  {
    assert Having(targets, (s: Status) => !s.Pending?) == set t | t in targets && !targets[t].Pending?;
    assert Having(targets, IsTerminal) == set t | t in targets && IsTerminal(targets[t]);
    assert Having(targets, (s: Status) => s.Failed?) == set t | t in targets && targets[t].Failed?;
    assert Having(targets, (s: Status) => s.Skipped?) == set t | t in targets && targets[t].Skipped?;
  }

  lemma HavingOneMore(targets: map<int, Status>, t: int, s: Status, kind: Status -> bool)
    requires t !in targets
    ensures |Having(targets[t := s], kind)| == |Having(targets, kind)| + if kind(s) then 1 else 0
  {
    var (was, now) := (Having(targets, kind), Having(targets[t := s], kind));
    assert now == if kind(s) then was + {t} else was;
  }

  lemma HavingNone(targets: map<int, Status>, kind: Status -> bool)
    ensures |Having(targets, kind)| == 0 <==> forall t | t in targets :: !kind(targets[t])
  {
    forall t | t in targets ensures kind(targets[t]) <==> t in Having(targets, kind) {
    }
    if forall t | t in targets :: !kind(targets[t]) {
      assert Having(targets, kind) == {};
    }
  }

  /** One target more adds its weight. */
  lemma CountsAdd(targets: map<int, Status>, t: int, s: Status)
    requires t !in targets
    ensures CountsOf(targets[t := s]) == Plus(CountsOf(targets), Weight(s))
  {
    hide CountsOf, Having;
    CountsByKind(targets);
    CountsByKind(targets[t := s]);
    HavingOneMore(targets, t, s, (s: Status) => !s.Pending?);
    HavingOneMore(targets, t, s, IsTerminal);
    HavingOneMore(targets, t, s, (s: Status) => s.Failed?);
    HavingOneMore(targets, t, s, (s: Status) => s.Skipped?);
  }

  /** One change of status exchanges the weights: from pending to expanded adds one to the expanded ones, from
  expanded to failed one to the ended and one to the failed ones, and so on. */
  lemma CountsExchange(targets: map<int, Status>, t: int, s: Status)
    requires t in targets
    ensures Plus(CountsOf(targets[t := s]), Weight(targets[t])) == Plus(CountsOf(targets), Weight(s))
  {
    hide CountsOf;
    var rest := targets - {t};
    CountsAdd(rest, t, targets[t]);
    CountsAdd(rest, t, s);
    assert rest[t := targets[t]] == targets && rest[t := s] == targets[t := s];
  }

  /** A counter is zero exactly if no target has a status that it counts. */
  lemma CountersOfNothing(targets: map<int, Status>)
    ensures var n := CountsOf(targets);
            && (n.failed == 0 <==> forall t | t in targets :: !targets[t].Failed?)
            && (n.skipped == 0 <==> forall t | t in targets :: !targets[t].Skipped?)
            && (n.terminal == 0 <==> forall t | t in targets :: targets[t].Pending? || targets[t].Expanded?)
            && (n.expanded == 0 <==> forall t | t in targets :: targets[t].Pending?)
  {
    hide CountsOf, Having;
    CountsByKind(targets);
    HavingNone(targets, (s: Status) => !s.Pending?);
    HavingNone(targets, IsTerminal);
    HavingNone(targets, (s: Status) => s.Failed?);
    HavingNone(targets, (s: Status) => s.Skipped?);
    forall t | t in targets ensures IsTerminal(targets[t]) <==> !(targets[t].Pending? || targets[t].Expanded?) {
    }
  }

  /** The counters are that tally. */
  lemma {:induction false} CountsAreTheTally(targets: map<int, Status>)
    ensures CountsOf(targets) == Tally(targets)
    decreases targets.Keys
  {
    hide CountsOf;
    if !exists t :: t in targets {
      CountersOfNothing(targets);
    } else {
      var t :| t in targets && Tally(targets) == Plus(Tally(targets - {t}), Weight(targets[t]));
      assert (targets - {t}).Keys == targets.Keys - {t};
      CountsAreTheTally(targets - {t});
      CountsAdd(targets - {t}, t, targets[t]);
      assert (targets - {t})[t := targets[t]] == targets;
    }
  }

  /** In every reachable state each committed campaign row holds the tally of its committed targets. */
  lemma RowIsTheTally(es: seq<Event>, c: int)
    ensures var tables := Run(LockFirst, EMPTY, es).tables;
            c in tables.rows ==>
              && c in tables.targets
              && var (row, targets) := (tables.rows[c], tables.targets[c]);
                 && row.target == |targets| && row.counts == Tally(targets)
                 && (row.counts.failed == 0 <==> forall t | t in targets :: !targets[t].Failed?)
                 && (row.counts.skipped == 0 <==> forall t | t in targets :: !targets[t].Skipped?)
  {
    RunKeeps(EMPTY, es);
    var tables := Run(LockFirst, EMPTY, es).tables;
    if c in tables.rows {
      assert RowOk(tables.rows[c], tables.targets[c]);
      CountsAreTheTally(tables.targets[c]);
      CountersOfNothing(tables.targets[c]);
    }
    hide Tally, CountsOf, Run;
  }

  /** The same after the procedure itself, on whatever rows it is called. */
  lemma RefreshedRowIsTheTally(row: Row, targets: map<int, Status>, now: int, later: int)
    requires targets != map[] && row.target == |targets|
    ensures var next := Refreshed(row, targets, now, later);
            && next.counts == Tally(targets) && next.target == row.target
            && (next.status.Terminal? <==> forall t | t in targets :: IsTerminal(targets[t]))
            && (next.status.Expanding? <==> exists t | t in targets :: targets[t].Pending?)
            && next.finished == (if !next.status.Terminal? then None
                                 else if row.finished.Some? then row.finished else Some(now))
            && (next.opTerminal <==> next.status.Terminal?)
            && next.opFinished == (if !next.status.Terminal? then None
                                   else if row.opFinished.Some? then row.opFinished else next.finished)
  {
    CountsAreTheTally(targets);
    AllCounted(targets);
    CountsAreNested(targets);
    hide Tally, CountsOf;
  }
}
