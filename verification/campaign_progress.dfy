/** What one whole transaction on a campaign target achieves when nobody holds its campaign: the target has its new
status, and the campaign row says so. */
module CampaignProgress {
  import opened Wrappers
  import opened Campaign
  import CampaignCounts

  /** The statements of such a transaction, in order. */
  function Transaction(title: int, c: int, to: Status, now: int, later: int): seq<Event> {
    [Begin(title), Change(title, c, to), Refresh(title, [c]), Lock(title)]
    + [Count(title), WriteCampaigns(title, now), WriteOperations(title, later), Commit(title)]
  }

  /** The changes of status that expansion, attempts and deletion make. */
  predicate Goes(was: Status, to: Status) {
    match was
    case Pending => to.Expanded? || to.Skipped?
    case Expanded => to.Succeeded? || to.Failed? || to.Skipped?
    case _ => false
  }

  /** A new campaign: every title is pending, and the row has ended exactly if there is none. A campaign that is there
  already stays as it is. */
  lemma CampaignIsCreated(order: Order, s: State, c: int, titles: set<int>, now: int)
    requires s.tables.rows.Keys == s.tables.targets.Keys
    ensures var t := Step(order, s, Create(c, titles, now));
            if c in s.tables.rows then t == s
            else
              && t.open == s.open && c in t.tables.rows && c in t.tables.targets
              && t.tables.rows == s.tables.rows[c := t.tables.rows[c]]
              && t.tables.targets == s.tables.targets[c := t.tables.targets[c]]
              && t.tables.targets[c].Keys == titles && (forall u | u in titles :: t.tables.targets[c][u].Pending?)
              && var row := t.tables.rows[c];
                 && row.target == |titles| && row.counts == Counts(0, 0, 0, 0)
                 && row.status == (if titles == {} then Terminal else Expanding)
                 && row.finished == row.opFinished == (if titles == {} then Some(now) else None)
                 && (row.opTerminal <==> titles == {})
  {
  }

  lemma RunFourMore(s: State, es: seq<Event>, fs: seq<Event>)
    ensures Run(LockFirst, s, es + fs) == Run(LockFirst, Run(LockFirst, s, es), fs)
    decreases es
  {
    hide Step;
    if es == [] {
      assert es + fs == fs;
    } else {
      assert (es + fs)[1..] == es[1..] + fs;
      RunFourMore(Step(LockFirst, s, es[0]), es[1..], fs);
    }
  }

  /** The changes, up to the lock. */
  lemma Locks(s: State, title: int, c: int, to: Status)
    requires title !in s.open && c in s.tables.targets && c in s.tables.rows && title in s.tables.targets[c]
    requires Goes(s.tables.targets[c][title], to) && forall u | u in s.open :: !Holds(s.open[u], c)
    ensures Run(LockFirst, s, [Begin(title), Change(title, c, to), Refresh(title, [c]), Lock(title)])
              == Put(s, title, Txn(map[c := to], Some([c]), 1, None, None, false))
  {
    var a := Put(s, title, Txn(map[], None, 0, None, None, false));
    var b := Put(s, title, Txn(map[c := to], None, 0, None, None, false));
    var d := Put(s, title, Txn(map[c := to], Some([c]), 0, None, None, false));
    RunFour(LockFirst, s, Begin(title), Change(title, c, to), Refresh(title, [c]), Lock(title));
    hide Run;
    assert Step(LockFirst, s, Begin(title)) == a;
    assert Step(LockFirst, a, Change(title, c, to)) == b by {
      assert a.open[title].changes[c := to] == map[c := to];
      assert b.open == a.open[title := b.open[title]];
    }
    assert Step(LockFirst, b, Refresh(title, [c])) == d by { assert d.open == b.open[title := d.open[title]]; }
    assert Step(LockFirst, d, Lock(title)) == Put(d, title, d.open[title].(held := 1)) by {
      forall u | u in d.open && u != title ensures !Holds(d.open[u], c) {
      }
    }
    assert s.open[title := d.open[title].(held := 1)] == d.open[title := d.open[title].(held := 1)];
  }

  lemma CountsIt(s: State, title: int, c: int, x: Txn)
    requires c in s.tables.targets && title in s.open && s.open[title] == x
    requires x.ids == Some([c]) && x.held == 1 && x.counted.None?
    ensures Step(LockFirst, s, Count(title))
              == Put(s, title, x.(counted := Some(map[c := CountsOf(Seen(s.tables, title, x, c))])))
  {
    hide CountsOf, Seen;
    assert Step(LockFirst, s,
                Count(title)).open[title].counted.value == map[c := CountsOf(Seen(s.tables, title, x, c))];
  }

  lemma WritesRow(s: State, title: int, c: int, x: Txn, counts: Counts, now: int)
    requires c in s.tables.targets && s.tables.targets[c] != map[] && c in s.tables.rows
    requires title in s.open && s.open[title] == x
    requires x.ids == Some([c]) && x.held == 1 && x.counted == Some(map[c := counts]) && x.rows.None?
    ensures Step(LockFirst, s, WriteCampaigns(title, now))
              == Put(s, title, x.(rows := Some(map[c := Project(s.tables.rows[c], counts, now)])))
  {
    hide Project;
    assert Step(LockFirst, s, WriteCampaigns(title, now)).open[title].rows.value
             == map[c := Project(s.tables.rows[c], counts, now)];
  }

  lemma WritesOperation(s: State, title: int, c: int, x: Txn, row: Row, later: int)
    requires title in s.open && s.open[title] == x && x.rows == Some(map[c := row]) && !x.written
    ensures Step(LockFirst, s, WriteOperations(title, later))
              == Put(s, title, x.(rows := Some(map[c := ProjectOperation(row, later)]), written := true))
  {
    hide ProjectOperation;
    assert Step(LockFirst, s,
                WriteOperations(title, later)).open[title].rows.value == map[c := ProjectOperation(row, later)];
  }

  lemma PutTwice(s: State, title: int, x: Txn, y: Txn)
    ensures Put(Put(s, title, x), title, y) == Put(s, title, y)
  {
    assert s.open[title := x][title := y] == s.open[title := y];
  }

  /** What it counts and writes, up to the commit. */
  lemma Writes(s: State, title: int, c: int, to: Status, now: int, later: int)
    requires c in s.tables.targets && c in s.tables.rows && title in s.tables.targets[c]
    requires title in s.open && s.open[title] == Txn(map[c := to], Some([c]), 1, None, None, false)
    ensures var t := Run(LockFirst, s,
                         [Count(title), WriteCampaigns(title, now), WriteOperations(title, later), Commit(title)]);
            var targets := s.tables.targets[c][title := to];
            && t.open == s.open - {title}
            && t.tables.targets == s.tables.targets[c := targets]
            && t.tables.rows == s.tables.rows[c := Refreshed(s.tables.rows[c], targets, now, later)]
  {
    hide CountsOf, Project, ProjectOperation, Step, Run;
    var targets := s.tables.targets[c][title := to];
    assert targets != map[] && s.tables.targets[c] != map[] by { assert title in targets; }
    var counts := CountsOf(targets);
    var row := Project(s.tables.rows[c], counts, now);
    var x := s.open[title];
    var y := x.(counted := Some(map[c := counts]));
    var z := y.(rows := Some(map[c := row]));
    var last := z.(rows := Some(map[c := ProjectOperation(row, later)]), written := true);
    RunFour(LockFirst, s, Count(title), WriteCampaigns(title, now), WriteOperations(title, later), Commit(title));
    assert Seen(s.tables, title, x, c) == targets;
    CountsIt(s, title, c, x);
    WritesRow(Put(s, title, y), title, c, y, counts, now);
    PutTwice(s, title, y, z);
    WritesOperation(Put(s, title, z), title, c, z, row, later);
    PutTwice(s, title, z, last);
    Commits(s, title, c, to, last);
  }

  lemma Commits(s: State, title: int, c: int, to: Status, x: Txn)
    requires c in s.tables.targets && c in s.tables.rows && title in s.open
    requires x.changes == map[c := to] && x.written && x.rows.Some? && x.rows.value.Keys == {c}
    ensures var t := Step(LockFirst, Put(s, title, x), Commit(title));
            && t.open == s.open - {title}
            && t.tables.targets == s.tables.targets[c := s.tables.targets[c][title := to]]
            && t.tables.rows == s.tables.rows[c := x.rows.value[c]]
  {
    hide CountsOf, Project, ProjectOperation;
    assert s.open[title := x] - {title} == s.open - {title};
  }

  /** The whole transaction: the target has its new status, the row is the tally of the targets with its status and
  times, the operation row follows, and nothing else has changed. */
  lemma UndisturbedTransaction(s: State, title: int, c: int, to: Status, now: int, later: int)
    requires Inv(s) && title !in s.open && c in s.tables.targets && c in s.tables.rows && title in s.tables.targets[c]
    requires Goes(s.tables.targets[c][title], to) && forall u | u in s.open :: !Holds(s.open[u], c)
    ensures var t := Run(LockFirst, s, Transaction(title, c, to, now, later));
            var targets := s.tables.targets[c][title := to];
            && t.open == s.open && t.tables.targets == s.tables.targets[c := targets]
            && c in t.tables.rows && t.tables.rows == s.tables.rows[c := t.tables.rows[c]]
            && t.tables.rows[c].counts == CampaignCounts.Tally(targets) && t.tables.rows[c].target == |targets|
            && (t.tables.rows[c].status.Terminal? <==> forall u | u in targets :: IsTerminal(targets[u]))
            && (t.tables.rows[c].opTerminal <==> t.tables.rows[c].status.Terminal?)
  {
    var half := Put(s, title, Txn(map[c := to], Some([c]), 1, None, None, false));
    var targets := s.tables.targets[c][title := to];
    RunFourMore(s, [Begin(title), Change(title, c, to), Refresh(title, [c]), Lock(title)],
                [Count(title), WriteCampaigns(title, now), WriteOperations(title, later), Commit(title)]);
    Locks(s, title, c, to);
    Writes(half, title, c, to, now, later);
    assert half.open - {title} == s.open;
    assert targets != map[] by { assert title in targets; }
    assert RowOk(s.tables.rows[c], s.tables.targets[c]);
    assert |targets| == |s.tables.targets[c]| by {
      assert targets.Keys == s.tables.targets[c].Keys && |targets| == |targets.Keys|;
      assert |s.tables.targets[c]| == |s.tables.targets[c].Keys|;
    }
    hide Run, CampaignCounts.Tally, CountsOf, Refreshed;
    CampaignCounts.RefreshedRowIsTheTally(s.tables.rows[c], targets, now, later);
  }
}
