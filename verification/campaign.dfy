/** Campaign counters under concurrent transactions.

Every transaction locks one title, changes the statuses of that title's campaign targets and then calls
`refresh`, which locks the affected campaign rows in order, counts, and rewrites the campaign and operation
rows. The transactions run under READ COMMITTED, so each of these statements is a step of its own. */
module Campaign {
  import opened Wrappers
  import LockOrder

  datatype Status = Pending | Expanded | Succeeded | Failed | Skipped

  datatype Progress = Expanding | Running | Terminal

  datatype Counts = Counts(expanded: nat, terminal: nat, failed: nat, skipped: nat)

  /** A campaign row with the row of the operation that asked for it. */
  datatype Row = Row(
    target: nat, counts: Counts, status: Progress, finished: Option<int>,
    opTerminal: bool, opFinished: Option<int>)

  /** The committed rows: per campaign the statuses of its titles, and its row. */
  datatype Tables = Tables(targets: map<int, map<int, Status>>, rows: map<int, Row>)

  /** One open transaction. `changes` are its uncommitted target statuses by campaign, `ids` the campaigns
  it refreshes, of which it has locked the first `held`; then what it counted and what it wrote. */
  datatype Txn = Txn(
    changes: map<int, Status>, ids: Option<seq<int>>, held: nat,
    counted: Option<map<int, Counts>>, rows: Option<map<int, Row>>, written: bool)

  /** Open transactions by the title each has locked. */
  datatype State = State(tables: Tables, open: map<int, Txn>)

  // ---------------------------------------------------------------- the projection

  predicate IsTerminal(s: Status) { s.Succeeded? || s.Failed? || s.Skipped? }

  function CountsOf(targets: map<int, Status>): Counts {
    Counts(|set t | t in targets && !targets[t].Pending?|,
           |set t | t in targets && IsTerminal(targets[t])|,
           |set t | t in targets && targets[t].Failed?|,
           |set t | t in targets && targets[t].Skipped?|)
  }

  function ProgressOf(counts: Counts, target: nat): Progress {
    if counts.terminal == target then Terminal
    else if counts.expanded == target then Running
    else Expanding
  }

  /** The second statement of `refresh`. */
  function Project(row: Row, counts: Counts, now: int): Row {
    var finished := if row.finished.Some? then row.finished else Some(now);
    row.(counts := counts, status := ProgressOf(counts, row.target),
         finished := if counts.terminal == row.target then finished else None)
  }

  /** The third statement of `refresh`. */
  function ProjectOperation(row: Row, now: int): Row {
    var finished := if row.opFinished.Some? then row.opFinished
                    else if row.finished.Some? then row.finished
                    else Some(now);
    row.(opTerminal := row.status.Terminal?, opFinished := if row.status.Terminal? then finished else None)
  }

  // ---------------------------------------------------------------- transactions

  datatype Event =
    | Create(campaign: int, titles: set<int>, now: int)
    | Begin(title: int)
    | Change(title: int, campaign: int, to: Status)
    | Refresh(title: int, ids: seq<int>)
    | Lock(title: int)
    | Count(title: int)
    | WriteCampaigns(title: int, now: int)
    | WriteOperations(title: int, now: int)
    | Commit(title: int)
    | Rollback(title: int)

  predicate IsAscending(ids: seq<int>) {
    forall i, j | 0 <= i < j < |ids| :: ids[i] < ids[j]
  }

  predicate Allowed(was: Status, to: Status) {
    (was.Pending? && (to.Expanded? || to.Skipped?)) || (was.Expanded? && IsTerminal(to))
  }

  predicate Holds(x: Txn, c: int) {
    x.ids.Some? && x.held <= |x.ids.value| && c in x.ids.value[..x.held]
  }

  predicate AllLocked(x: Txn) { x.ids.Some? && x.held == |x.ids.value| }

  predicate LockedByOther(s: State, title: int, c: int) {
    exists u | u in s.open :: u != title && Holds(s.open[u], c)
  }

  /** The targets of one campaign as the transaction on `title` sees them. */
  function Seen(tables: Tables, title: int, x: Txn, c: int): map<int, Status>
    requires c in tables.targets
  {
    if c in x.changes then tables.targets[c][title := x.changes[c]] else tables.targets[c]
  }

  /** A campaign as `apply_promotion` inserts it. */
  function NewRow(titles: set<int>, now: int): Row {
    var at := if |titles| == 0 then Some(now) else None;
    Row(|titles|, Counts(0, 0, 0, 0), if |titles| == 0 then Terminal else Expanding, at, |titles| == 0, at)
  }

  function Put(s: State, title: int, x: Txn): State { s.(open := s.open[title := x]) }

  function Committed(tables: Tables, title: int, x: Txn): Tables {
    Tables(map c | c in tables.targets :: Seen(tables, title, x, c),
           if x.rows.Some? then tables.rows + x.rows.value else tables.rows)
  }

  /** Whether the count may run: `refresh` counts only after it holds every lock. */
  datatype Order = LockFirst | CountFirst

  function Step(order: Order, s: State, e: Event): State {
    match e
    case Create(c, titles, now) =>
      if c in s.tables.rows || c in s.tables.targets then s
      else s.(tables := Tables(s.tables.targets[c := map t | t in titles :: Pending],
                               s.tables.rows[c := NewRow(titles, now)]))
    case Begin(title) =>
      if title in s.open then s else Put(s, title, Txn(map[], None, 0, None, None, false))
    case Rollback(title) => s.(open := s.open - {title})
    case _ =>
      if e.title !in s.open then s else StepOpen(order, s, e.title, s.open[e.title], e)
  }

  function StepOpen(order: Order, s: State, title: int, x: Txn, e: Event): State {
    match e
    case Change(_, c, to) =>
      if x.ids.None? && c in s.tables.targets && title in Seen(s.tables, title, x, c)
         && Allowed(Seen(s.tables, title, x, c)[title], to)
      then Put(s, title, x.(changes := x.changes[c := to]))
      else s
    case Refresh(_, ids) =>
      if x.ids.None? && IsAscending(ids) && (forall c | c in x.changes :: c in ids)
         && (forall c | c in ids :: c in s.tables.rows && c in s.tables.targets)
      then Put(s, title, x.(ids := Some(ids)))
      else s
    case Lock(_) =>
      if x.ids.Some? && x.held < |x.ids.value| && !LockedByOther(s, title, x.ids.value[x.held])
      then Put(s, title, x.(held := x.held + 1))
      else s
    case Count(_) =>
      if x.ids.Some? && x.counted.None? && (order.LockFirst? ==> AllLocked(x))
      then Put(s, title, x.(counted := Some(map c | c in x.ids.value && c in s.tables.targets ::
                                              CountsOf(Seen(s.tables, title, x, c)))))
      else s
    case WriteCampaigns(_, now) =>
      if AllLocked(x) && x.counted.Some? && x.rows.None?
      then Put(s, title, x.(rows := Some(map c | && c in x.ids.value && c in x.counted.value
                                                 && c in s.tables.rows && c in s.tables.targets ::
                                           if s.tables.targets[c] == map[] then s.tables.rows[c]
                                           else Project(s.tables.rows[c], x.counted.value[c], now))))
      else s
    case WriteOperations(_, now) =>
      if x.rows.Some? && !x.written
      then Put(s, title, x.(written := true,
                            rows := Some(map c | c in x.rows.value :: ProjectOperation(x.rows.value[c], now))))
      else s
    case Commit(_) =>
      if x.written || (x.ids.None? && x.changes == map[])
      then State(Committed(s.tables, title, x), s.open - {title})
      else s
    case _ => s
  }

  function Run(order: Order, s: State, es: seq<Event>): State
    decreases es
  {
    if es == [] then s else Run(order, Step(order, s, es[0]), es[1..])
  }

  const EMPTY := State(Tables(map[], map[]), map[])

  // ---------------------------------------------------------------- the invariant

  /** A target leaves `Pending` once and ends once. */
  predicate Follows(was: Status, to: Status) {
    was == to || was.Pending? || (was.Expanded? && IsTerminal(to))
  }

  /** A row that says exactly what its targets say. */
  ghost predicate RowOk(row: Row, targets: map<int, Status>) {
    && row.target == |targets|
    && row.counts == CountsOf(targets)
    && row.status == ProgressOf(row.counts, row.target)
    && (row.finished.Some? <==> row.status.Terminal?)
    && row.opTerminal == row.status.Terminal?
    && (row.opFinished.Some? <==> row.status.Terminal?)
  }

  ghost predicate TablesOk(tables: Tables) {
    && tables.targets.Keys == tables.rows.Keys
    && forall c | c in tables.rows :: RowOk(tables.rows[c], tables.targets[c])
  }

  /** The campaign half of `RowOk`, before the operation is written. */
  ghost predicate ProjectedOk(row: Row, targets: map<int, Status>) {
    && row.target == |targets|
    && row.counts == CountsOf(targets)
    && row.status == ProgressOf(row.counts, row.target)
    && (row.finished.Some? <==> row.status.Terminal?)
  }

  predicate KeepsFinish(was: Row, row: Row) {
    && (was.finished.Some? && row.finished.Some? ==> row.finished == was.finished)
    && (was.opFinished.Some? && row.opFinished.Some? ==> row.opFinished == was.opFinished)
  }

  ghost predicate ChangesOk(tables: Tables, title: int, x: Txn) {
    forall c | c in x.changes ::
      c in tables.targets && title in tables.targets[c] && Follows(tables.targets[c][title], x.changes[c])
  }

  /** A row this transaction has written but not committed. */
  ghost predicate WrittenOk(was: Row, row: Row, targets: map<int, Status>, written: bool) {
    && KeepsFinish(was, row)
    && (written ==> RowOk(row, targets))
    && (!written ==> ProjectedOk(row, targets) && row.opTerminal == was.opTerminal && row.opFinished == was.opFinished)
  }

  ghost predicate TxnOk(tables: Tables, title: int, x: Txn) {
    && ChangesOk(tables, title, x)
    && (x.ids.None? ==> x.held == 0 && x.counted.None? && x.rows.None?)
    && (x.ids.Some? ==>
          && IsAscending(x.ids.value) && x.held <= |x.ids.value|
          && (forall c | c in x.changes :: c in x.ids.value)
          && (forall c | c in x.ids.value :: c in tables.rows && c in tables.targets))
    && (x.counted.Some? ==> AllLocked(x) && forall c | c in x.ids.value ::
          c in x.counted.value && x.counted.value[c] == CountsOf(Seen(tables, title, x, c)))
    && (x.rows.Some? ==>
          && AllLocked(x) && x.counted.Some?
          && (forall c | c in x.ids.value :: c in x.rows.value)
          && (forall c | c in x.rows.value :: c in x.ids.value)
          && forall c | c in x.ids.value ::
               WrittenOk(tables.rows[c], x.rows.value[c], Seen(tables, title, x, c), x.written))
    && (x.written ==> x.rows.Some?)
  }

  ghost predicate LocksOk(s: State) {
    forall t, u, c | t in s.open && u in s.open && t != u :: !(Holds(s.open[t], c) && Holds(s.open[u], c))
  }

  ghost predicate Inv(s: State) {
    && TablesOk(s.tables)
    && (forall t | t in s.open :: TxnOk(s.tables, t, s.open[t]))
    && LocksOk(s)
  }

  // ---------------------------------------------------------------- one step

  /** What a transaction knows survives any commit that stays off its locks and its title. */
  lemma TxnFrame(before: Tables, after: Tables, title: int, x: Txn)
    requires TxnOk(before, title, x)
    requires before.targets.Keys <= after.targets.Keys && before.rows.Keys <= after.rows.Keys
    requires forall c | c in before.targets && title in before.targets[c] ::
               title in after.targets[c] && after.targets[c][title] == before.targets[c][title]
    requires forall c | Holds(x, c) && c in before.targets && c in before.rows ::
               after.targets[c] == before.targets[c] && after.rows[c] == before.rows[c]
    ensures TxnOk(after, title, x)
  {
    hide WrittenOk, CountsOf, Follows;
    if x.counted.Some? || x.rows.Some? {
      assert x.ids.value[..x.held] == x.ids.value;
      forall c | c in x.ids.value
        ensures Seen(after, title, x, c) == Seen(before, title, x, c) && after.rows[c] == before.rows[c]
      {
        assert Holds(x, c);
      }
    }
  }

  lemma CreateKeeps(order: Order, s: State, c: int, titles: set<int>, now: int)
    requires Inv(s)
    ensures Inv(Step(order, s, Create(c, titles, now)))
  {
    var t := Step(order, s, Create(c, titles, now));
    if t != s {
      var targets: map<int, Status> := map x | x in titles :: Pending;
      assert targets.Keys == titles;
      assert (set x | x in targets && !targets[x].Pending?) == {};
      assert (set x | x in targets && IsTerminal(targets[x])) == {};
      assert (set x | x in targets && targets[x].Failed?) == {};
      assert (set x | x in targets && targets[x].Skipped?) == {};
      assert RowOk(NewRow(titles, now), targets);
      hide RowOk, CountsOf;
      forall u | u in s.open ensures TxnOk(t.tables, u, s.open[u]) {
        TxnFrame(s.tables, t.tables, u, s.open[u]);
      }
    }
  }

  lemma CommitKeeps(order: Order, s: State, title: int)
    requires Inv(s)
    ensures Inv(Step(order, s, Commit(title)))
  {
    hide RowOk, CountsOf, KeepsFinish, ProjectedOk;
    var t := Step(order, s, Commit(title));
    if title in s.open && t != s {
      var x := s.open[title];
      CommittedIsOk(s.tables, title, x);
      forall u | u in t.open ensures TxnOk(t.tables, u, s.open[u]) {
        forall c | Holds(s.open[u], c) && c in s.tables.targets && c in s.tables.rows
          ensures t.tables.targets[c] == s.tables.targets[c] && t.tables.rows[c] == s.tables.rows[c]
        {
          assert !Holds(x, c);
          if x.written { assert x.ids.value[..x.held] == x.ids.value; }
        }
        TxnFrame(s.tables, t.tables, u, s.open[u]);
      }
    }
  }

  lemma CommittedIsOk(tables: Tables, title: int, x: Txn)
    requires TablesOk(tables) && TxnOk(tables, title, x)
    requires x.written || (x.ids.None? && x.changes == map[])
    ensures TablesOk(Committed(tables, title, x))
    ensures Committed(tables, title, x).rows.Keys == tables.rows.Keys
  {
    hide RowOk, CountsOf, KeepsFinish, ProjectedOk;
    var after := Committed(tables, title, x);
    assert after.targets.Keys == tables.targets.Keys;
    if x.written {
      forall c | c in x.rows.value ensures c in tables.rows {
        assert c in x.ids.value;
      }
      assert after.rows.Keys == tables.rows.Keys;
    }
    forall c | c in after.rows ensures RowOk(after.rows[c], after.targets[c]) {
      assert c in tables.rows && RowOk(tables.rows[c], tables.targets[c]);
    }
  }

  /** A transaction that changes only itself, on campaigns nobody else has locked. */
  lemma PutKeeps(s: State, title: int, x: Txn)
    requires Inv(s) && title in s.open && TxnOk(s.tables, title, x)
    requires forall c | Holds(x, c) :: Holds(s.open[title], c) || !LockedByOther(s, title, c)
    ensures Inv(Put(s, title, x))
  {
    hide TxnOk, TablesOk;
    var t := Put(s, title, x);
    forall u, v, c | u in t.open && v in t.open && u != v ensures !(Holds(t.open[u], c) && Holds(t.open[v], c)) {
    }
  }

  lemma LockKeeps(order: Order, s: State, title: int)
    requires Inv(s) && title in s.open
    ensures Inv(StepOpen(order, s, title, s.open[title], Lock(title)))
  {
    hide WrittenOk, CountsOf, RowOk;
    var x := s.open[title];
    if x.ids.Some? && x.held < |x.ids.value| && !LockedByOther(s, title, x.ids.value[x.held]) {
      var y := x.(held := x.held + 1);
      forall c | Holds(y, c) ensures Holds(x, c) || !LockedByOther(s, title, c) {
        assert x.ids.value[..y.held] == x.ids.value[..x.held] + [x.ids.value[x.held]];
      }
      PutKeeps(s, title, y);
    }
  }

  /** With every lock in hand, what is counted is what will be committed. */
  lemma CountKeeps(s: State, title: int)
    requires Inv(s) && title in s.open
    ensures Inv(StepOpen(LockFirst, s, title, s.open[title], Count(title)))
  {
    hide WrittenOk, CountsOf, RowOk;
    var x := s.open[title];
    if x.ids.Some? && x.counted.None? && AllLocked(x) {
      var y := StepOpen(LockFirst, s, title, x, Count(title)).open[title];
      assert TxnOk(s.tables, title, y);
      PutKeeps(s, title, y);
    }
  }

  lemma ProjectIsOk(was: Row, targets: map<int, Status>, before: map<int, Status>, now: int)
    requires RowOk(was, before) && |targets| == |before|
    ensures WrittenOk(was, Project(was, CountsOf(targets), now), targets, false)
  {
    hide CountsOf;
  }

  lemma ProjectOperationIsOk(was: Row, row: Row, targets: map<int, Status>, now: int)
    requires WrittenOk(was, row, targets, false)
    ensures WrittenOk(was, ProjectOperation(row, now), targets, true)
  {
    hide CountsOf;
  }

  lemma SameTitles(tables: Tables, title: int, x: Txn, c: int)
    requires ChangesOk(tables, title, x) && c in tables.targets
    ensures Seen(tables, title, x, c).Keys == tables.targets[c].Keys
    ensures |Seen(tables, title, x, c)| == |tables.targets[c]|
  {
    var seen := Seen(tables, title, x, c);
    assert seen.Keys == tables.targets[c].Keys;
    assert |seen| == |seen.Keys| && |tables.targets[c]| == |tables.targets[c].Keys|;
  }

  lemma WriteCampaignsKeeps(order: Order, s: State, title: int, now: int)
    requires Inv(s) && title in s.open
    ensures Inv(StepOpen(order, s, title, s.open[title], WriteCampaigns(title, now)))
  {
    hide WrittenOk, CountsOf, RowOk, Project;
    var x := s.open[title];
    if AllLocked(x) && x.counted.Some? && x.rows.None? {
      var y := StepOpen(order, s, title, x, WriteCampaigns(title, now)).open[title];
      forall c | c in x.ids.value
        ensures c in y.rows.value && WrittenOk(s.tables.rows[c], y.rows.value[c], Seen(s.tables, title, y, c), false) {
        SameTitles(s.tables, title, x, c);
        assert Seen(s.tables, title, y, c) == Seen(s.tables, title, x, c);
        if s.tables.targets[c] == map[] {
          EmptyStays(s.tables.rows[c], s.tables.targets[c]);
          assert Seen(s.tables, title, x, c) == map[];
        } else {
          ProjectIsOk(s.tables.rows[c], Seen(s.tables, title, x, c), s.tables.targets[c], now);
        }
      }
      PutKeeps(s, title, y);
    }
  }

  lemma EmptyStays(row: Row, targets: map<int, Status>)
    requires RowOk(row, targets)
    ensures WrittenOk(row, row, targets, false)
  {
  }

  lemma WriteOperationsKeeps(order: Order, s: State, title: int, now: int)
    requires Inv(s) && title in s.open
    ensures Inv(StepOpen(order, s, title, s.open[title], WriteOperations(title, now)))
  {
    hide WrittenOk, CountsOf, RowOk, ProjectOperation;
    var x := s.open[title];
    if x.rows.Some? && !x.written {
      var y := StepOpen(order, s, title, x, WriteOperations(title, now)).open[title];
      forall c | c in x.ids.value
        ensures c in y.rows.value && WrittenOk(s.tables.rows[c], y.rows.value[c], Seen(s.tables, title, y, c), true) {
        assert Seen(s.tables, title, y, c) == Seen(s.tables, title, x, c);
        ProjectOperationIsOk(s.tables.rows[c], x.rows.value[c], Seen(s.tables, title, x, c), now);
      }
      PutKeeps(s, title, y);
    }
  }

  lemma ChangeKeeps(order: Order, s: State, title: int, c: int, to: Status)
    requires Inv(s) && title in s.open
    ensures Inv(StepOpen(order, s, title, s.open[title], Change(title, c, to)))
  {
    hide WrittenOk, CountsOf, RowOk;
    var x := s.open[title];
    var t := StepOpen(order, s, title, x, Change(title, c, to));
    if t != s {
      PutKeeps(s, title, t.open[title]);
    }
  }

  lemma StepKeeps(s: State, e: Event)
    requires Inv(s)
    ensures Inv(Step(LockFirst, s, e))
  {
    hide TxnOk, TablesOk, StepOpen;
    match e
    case Create(c, titles, now) => CreateKeeps(LockFirst, s, c, titles, now);
    case Begin(title) => BeginKeeps(s, title);
    case Rollback(title) =>
    case Commit(title) => CommitKeeps(LockFirst, s, title);
    case _ => if e.title in s.open { OpenKeeps(s, e); }
  }

  lemma BeginKeeps(s: State, title: int)
    requires Inv(s)
    ensures Inv(Step(LockFirst, s, Begin(title)))
  {
    hide TablesOk, WrittenOk;
  }

  lemma OpenKeeps(s: State, e: Event)
    requires Inv(s) && !e.Create? && !e.Begin? && !e.Rollback? && !e.Commit? && e.title in s.open
    ensures Inv(StepOpen(LockFirst, s, e.title, s.open[e.title], e))
  {
    hide TablesOk, WrittenOk, CountsOf;
    match e
    case Change(title, c, to) => ChangeKeeps(LockFirst, s, title, c, to);
    case Refresh(title, ids) =>
      var t := StepOpen(LockFirst, s, title, s.open[title], e);
      if t != s { PutKeeps(s, title, t.open[title]); }
    case Lock(title) => LockKeeps(LockFirst, s, title);
    case Count(title) => CountKeeps(s, title);
    case WriteCampaigns(title, now) => WriteCampaignsKeeps(LockFirst, s, title, now);
    case WriteOperations(title, now) => WriteOperationsKeeps(LockFirst, s, title, now);
  }

  lemma {:induction false} RunKeeps(s: State, es: seq<Event>)
    requires Inv(s)
    ensures Inv(Run(LockFirst, s, es))
    decreases es
  {
    hide Inv, Step;
    if es != [] {
      StepKeeps(s, es[0]);
      RunKeeps(Step(LockFirst, s, es[0]), es[1..]);
    }
  }

  // ---------------------------------------------------------------- what commits never take back

  function Rank(p: Progress): nat {
    match p
    case Expanding => 0
    case Running => 1
    case Terminal => 2
  }

  ghost predicate CampaignAdvances(was: Row, before: map<int, Status>, row: Row, after: map<int, Status>) {
    && row.target == was.target
    && after.Keys == before.Keys
    && (forall t | t in before :: Follows(before[t], after[t]))
    && was.counts.expanded <= row.counts.expanded && was.counts.terminal <= row.counts.terminal
    && Rank(was.status) <= Rank(row.status)
    && (was.finished.Some? ==> row.finished == was.finished)
    && (was.opFinished.Some? ==> row.opFinished == was.opFinished)
  }

  ghost predicate Advances(before: Tables, after: Tables) {
    && before.rows.Keys <= after.rows.Keys && before.targets.Keys <= after.targets.Keys
    && forall c | c in before.rows && c in before.targets ::
         CampaignAdvances(before.rows[c], before.targets[c], after.rows[c], after.targets[c])
  }

  lemma AdvancesComposes(x: Tables, y: Tables, z: Tables)
    requires Advances(x, y) && Advances(y, z)
    ensures Advances(x, z)
  {
    forall c | c in x.rows && c in x.targets
      ensures CampaignAdvances(x.rows[c], x.targets[c], z.rows[c], z.targets[c])
    {
      assert CampaignAdvances(x.rows[c], x.targets[c], y.rows[c], y.targets[c]);
      assert CampaignAdvances(y.rows[c], y.targets[c], z.rows[c], z.targets[c]);
    }
  }

  /** A subset has no more elements. */
  lemma {:induction false} Fewer(small: set<int>, large: set<int>)
    requires small <= large
    ensures |small| <= |large|
  {
    assert large == small + (large - small);
  }

  lemma CountsGrow(before: map<int, Status>, after: map<int, Status>)
    requires after.Keys == before.Keys && forall t | t in before :: Follows(before[t], after[t])
    ensures CountsOf(before).expanded <= CountsOf(after).expanded
    ensures CountsOf(before).terminal <= CountsOf(after).terminal
  {
    var terminal, expanded := set t | t in before && IsTerminal(before[t]), set t | t in before && !before[t].Pending?;
    var terminalNow := set t | t in after && IsTerminal(after[t]);
    var expandedNow := set t | t in after && !after[t].Pending?;
    forall t | t in expanded ensures t in expandedNow && (t in terminal ==> t in terminalNow) {
      assert t in after.Keys && Follows(before[t], after[t]);
    }
    Fewer(terminal, terminalNow);
    Fewer(expanded, expandedNow);
  }

  /** Terminal targets are among the expanded ones, and those among all. */
  lemma CountsAreNested(targets: map<int, Status>)
    ensures var n := CountsOf(targets);
            n.failed + n.skipped <= n.terminal <= n.expanded <= |targets|
  {
    var expanded := set t | t in targets && !targets[t].Pending?;
    var terminal := set t | t in targets && IsTerminal(targets[t]);
    var failed, skipped := set t | t in targets && targets[t].Failed?, set t | t in targets && targets[t].Skipped?;
    Fewer(terminal, expanded);
    Fewer(expanded, targets.Keys);
    Fewer(failed + skipped, terminal);
    assert failed !! skipped;
  }

  lemma ProgressGrows(was: Row, before: map<int, Status>, row: Row, after: map<int, Status>)
    requires RowOk(was, before) && RowOk(row, after) && KeepsFinish(was, row)
    requires after.Keys == before.Keys && forall t | t in before :: Follows(before[t], after[t])
    ensures CampaignAdvances(was, before, row, after)
  {
    hide CountsOf, Follows;
    assert |before| == |before.Keys| && |after| == |after.Keys|;
    CountsGrow(before, after);
    CountsAreNested(before);
    CountsAreNested(after);
  }

  lemma CommitAdvances(tables: Tables, title: int, x: Txn)
    requires TablesOk(tables) && TxnOk(tables, title, x)
    requires x.written || (x.ids.None? && x.changes == map[])
    ensures Advances(tables, Committed(tables, title, x))
  {
    hide RowOk, CountsOf, ProjectedOk, KeepsFinish, CampaignAdvances;
    CommittedIsOk(tables, title, x);
    var after := Committed(tables, title, x);
    forall c | c in tables.rows && c in tables.targets
      ensures CampaignAdvances(tables.rows[c], tables.targets[c], after.rows[c], after.targets[c])
    {
      SameTitles(tables, title, x, c);
      assert KeepsFinish(tables.rows[c], after.rows[c]) by {
        if x.written && c in x.ids.value {
          assert WrittenOk(tables.rows[c], x.rows.value[c], Seen(tables, title, x, c), true);
        } else {
          assert after.rows[c] == tables.rows[c];
          Reflexive(tables.rows[c]);
        }
      }
      ProgressGrows(tables.rows[c], tables.targets[c], after.rows[c], after.targets[c]);
    }
  }

  lemma Reflexive(row: Row)
    ensures KeepsFinish(row, row)
  {
  }

  lemma CreateAdvances(order: Order, s: State, c: int, titles: set<int>, now: int)
    ensures Advances(s.tables, Step(order, s, Create(c, titles, now)).tables)
  {
    hide CountsOf, NewRow;
  }

  /** Only a commit writes to rows that are there. */
  lemma OthersWriteNothing(order: Order, s: State, e: Event)
    requires !e.Create? && !e.Commit?
    ensures Step(order, s, e).tables == s.tables
  {
    hide CountsOf, Project, ProjectOperation, Seen, LockedByOther;
  }

  lemma StepAdvances(s: State, e: Event)
    requires Inv(s)
    ensures Advances(s.tables, Step(LockFirst, s, e).tables)
  {
    hide Advances, Committed, TxnOk, TablesOk;
    Stays(s.tables);
    if e.Create? {
      CreateAdvances(LockFirst, s, e.campaign, e.titles, e.now);
    } else if !e.Commit? {
      hide Step;
      OthersWriteNothing(LockFirst, s, e);
    } else if e.title in s.open {
      var x := s.open[e.title];
      if x.written || (x.ids.None? && x.changes == map[]) {
        CommitAdvances(s.tables, e.title, x);
      }
    }
  }

  lemma {:induction false} RunAdvances(s: State, es: seq<Event>)
    requires Inv(s)
    ensures Advances(s.tables, Run(LockFirst, s, es).tables)
    decreases es
  {
    hide Inv, Step, Advances;
    if es == [] {
      Stays(s.tables);
    } else {
      var t := Step(LockFirst, s, es[0]);
      StepKeeps(s, es[0]);
      StepAdvances(s, es[0]);
      RunAdvances(t, es[1..]);
      AdvancesComposes(s.tables, t.tables, Run(LockFirst, t, es[1..]).tables);
    }
  }

  lemma Stays(tables: Tables)
    ensures Advances(tables, tables)
  {
  }

  // ---------------------------------------------------------------- whole runs

  /** However the transactions interleave, every committed campaign row counts exactly the committed
  targets, its status and its operation follow from those counts, and it has a finishing time exactly
  when all its targets have ended. */
  lemma RowIsTheProjection(es: seq<Event>, c: int)
    ensures var tables := Run(LockFirst, EMPTY, es).tables;
            c in tables.rows ==>
              && c in tables.targets
              && var (row, targets) := (tables.rows[c], tables.targets[c]);
                 && row.counts == CountsOf(targets)
                 && (row.status.Terminal? <==> forall t | t in targets :: IsTerminal(targets[t]))
                 && (row.finished.Some? <==> row.status.Terminal?)
                 && (row.status.Expanding? ==> exists t | t in targets :: targets[t].Pending?)
                 && (row.status.Running? ==> forall t | t in targets :: !targets[t].Pending?)
                 && (row.opTerminal <==> row.status.Terminal?) && (row.opFinished.Some? <==> row.opTerminal)
                 && row.counts.failed + row.counts.skipped <= row.counts.terminal <= row.counts.expanded <= row.target
  {
    RunKeeps(EMPTY, es);
    var tables := Run(LockFirst, EMPTY, es).tables;
    if c in tables.rows {
      assert RowOk(tables.rows[c], tables.targets[c]);
      CountsAreNested(tables.targets[c]);
      AllCounted(tables.targets[c]);
    }
  }

  /** A count reaches the number of targets only when every target is counted. */
  lemma AllCounted(targets: map<int, Status>)
    ensures CountsOf(targets).terminal == |targets| <==> forall t | t in targets :: IsTerminal(targets[t])
    ensures CountsOf(targets).expanded == |targets| <==> forall t | t in targets :: !targets[t].Pending?
  {
    var terminal := set t | t in targets && IsTerminal(targets[t]);
    var expanded := set t | t in targets && !targets[t].Pending?;
    assert |targets| == |targets.Keys|;
    Whole(terminal, targets.Keys);
    Whole(expanded, targets.Keys);
    if terminal == targets.Keys {
      forall t | t in targets ensures IsTerminal(targets[t]) { assert t in terminal; }
    }
    if expanded == targets.Keys {
      forall t | t in targets ensures !targets[t].Pending? { assert t in expanded; }
    }
    if forall t | t in targets :: IsTerminal(targets[t]) {
      assert terminal == targets.Keys;
    }
    if forall t | t in targets :: !targets[t].Pending? {
      assert expanded == targets.Keys;
    }
  }

  lemma Whole(part: set<int>, all: set<int>)
    requires part <= all
    ensures |part| == |all| <==> part == all
  {
    assert all == part + (all - part);
    assert |all| == |part| + |all - part|;
  }

  /** From one committed state to any later one: no target goes back, the status only moves from expanding
  to running to terminal, and a finishing time, once written, never changes. */
  lemma CampaignsOnlyAdvance(es: seq<Event>, more: seq<Event>, c: int)
    ensures var before := Run(LockFirst, EMPTY, es);
            var after := Run(LockFirst, before, more);
            c in before.tables.rows ==>
              && c in before.tables.targets && c in after.tables.rows && c in after.tables.targets
              && CampaignAdvances(before.tables.rows[c], before.tables.targets[c], after.tables.rows[c],
                                  after.tables.targets[c])
  {
    RunKeeps(EMPTY, es);
    RunAdvances(Run(LockFirst, EMPTY, es), more);
  }

  // ---------------------------------------------------------------- no deadlock

  function RankOf(c: int): LockOrder.Rank { LockOrder.Rank(1, c) }

  ghost function WaitsOf(s: State): LockOrder.Waits<int> {
    LockOrder.Waits(
      map t | t in s.open :: (set c | c in s.tables.rows && Holds(s.open[t], c) :: RankOf(c)),
      map t | t in s.open && s.open[t].ids.Some? && s.open[t].held < |s.open[t].ids.value|
              && LockedByOther(s, t, s.open[t].ids.value[s.open[t].held]) ::
                   RankOf(s.open[t].ids.value[s.open[t].held]))
  }

  /** Stopped in front of the next campaign row. */
  predicate Blocked(s: State, title: int)
    requires title in s.open
  {
    var x := s.open[title];
    x.ids.Some? && x.held < |x.ids.value| && LockedByOther(s, title, x.ids.value[x.held])
  }

  /** Campaign locks are taken in ascending order. */
  lemma WaitsAscend(s: State)
    requires Inv(s)
    ensures LockOrder.Ascending(WaitsOf(s))
  {
    var w := WaitsOf(s);
    forall t, r | t in w.wanted && r in w.held[t] ensures LockOrder.Below(r, w.wanted[t]) {
      var x := s.open[t];
      assert TxnOk(s.tables, t, x);
      assert r.row in x.ids.value[..x.held];
      var i :| 0 <= i < x.held && x.ids.value[i] == r.row;
    }
  }

  lemma NoDeadlock(es: seq<Event>, ts: seq<int>)
    ensures !LockOrder.IsCycle(WaitsOf(Run(LockFirst, EMPTY, es)), ts)
  {
    RunKeeps(EMPTY, es);
    WaitsAscend(Run(LockFirst, EMPTY, es));
    LockOrder.NoCycle(WaitsOf(Run(LockFirst, EMPTY, es)), ts);
  }

  /** While any transaction is open, one of them is not blocked. */
  lemma SomeoneIsNotBlocked(es: seq<Event>) returns (title: int)
    requires Run(LockFirst, EMPTY, es).open != map[]
    ensures var s := Run(LockFirst, EMPTY, es);
            title in s.open && !Blocked(s, title)
  {
    hide Step, Blocked;
    RunKeeps(EMPTY, es);
    title := NotBlocked(Run(LockFirst, EMPTY, es));
  }

  lemma BlockedByOne(s: State, title: int) returns (u: int)
    requires Inv(s) && title in s.open && Blocked(s, title)
    ensures u in s.open && LockOrder.Blocks(WaitsOf(s), title, u)
  {
    hide TablesOk, WrittenOk, CountsOf, ChangesOk, LocksOk;
    var c := s.open[title].ids.value[s.open[title].held];
    u :| u in s.open && u != title && Holds(s.open[u], c);
    assert TxnOk(s.tables, u, s.open[u]);
    assert c in s.tables.rows;
    assert RankOf(c) in WaitsOf(s).held[u];
  }

  lemma NotBlocked(s: State) returns (title: int)
    requires Inv(s) && s.open != map[]
    ensures title in s.open && !Blocked(s, title)
  {
    hide Inv, Blocked;
    WaitsAscend(s);
    var w := WaitsOf(s);
    assert w.held.Keys == s.open.Keys;
    title := LockOrder.SomeoneProceeds(w);
    if Blocked(s, title) {
      var _ := BlockedByOne(s, title);
    }
  }

  // ---------------------------------------------------------------- the procedure

  /** One campaign row after the two updates of `refresh`. */
  function Refreshed(row: Row, targets: map<int, Status>, now: int, later: int): Row {
    ProjectOperation(if targets == map[] then row else Project(row, CountsOf(targets), now), later)
  }

  /** The rows one transaction works on, its own changes included. */
  class CampaignRows {
    var targets: map<int, map<int, Status>>
    var rows: map<int, Row>

    constructor (targets: map<int, map<int, Status>>, rows: map<int, Row>)
      ensures this.targets == targets && this.rows == rows
    {
      this.targets, this.rows := targets, rows;
    }

    /** `refresh` under its locks: first every campaign, then every operation. Whatever the target changes
    were, each named row says afterwards what its targets say, and no other row changes. */
    method Refresh(ids: seq<int>, now: int, later: int)
      requires rows.Keys == targets.Keys && forall c | c in ids :: c in rows
      modifies this`rows
      ensures rows.Keys == old(rows).Keys
      ensures forall c | c in rows :: rows[c] == if c in ids then Refreshed(old(rows)[c], targets[c], now, later)
                                                 else old(rows)[c]
      ensures forall c | c in ids && old(rows)[c].target == |targets[c]|
                && (targets[c] == map[] ==> RowOk(old(rows)[c], map[])) ::
                RowOk(rows[c], targets[c])
    {
      hide CountsOf, RowOk, Project, ProjectOperation;
      for i := 0 to |ids|
        invariant rows.Keys == old(rows).Keys
        invariant forall c | c in rows ::
                    rows[c] == if c in ids[..i] && targets[c] != map[]
                               then Project(old(rows)[c], CountsOf(targets[c]), now)
                               else old(rows)[c]
      {
        var c := ids[i];
        assert c in ids && ids[..i + 1] == ids[..i] + [c];
        if targets[c] != map[] {
          ProjectTwice(old(rows)[c], CountsOf(targets[c]), now);
          rows := rows[c := Project(rows[c], CountsOf(targets[c]), now)];
        }
      }
      assert ids[..|ids|] == ids;
      ghost var counted := rows;
      for i := 0 to |ids|
        invariant rows.Keys == old(rows).Keys
        invariant forall c | c in rows :: rows[c] == if c in ids[..i] then ProjectOperation(counted[c], later)
                                                     else counted[c]
      {
        var c := ids[i];
        assert c in ids && ids[..i + 1] == ids[..i] + [c];
        ProjectOperationTwice(counted[c], later);
        rows := rows[c := ProjectOperation(rows[c], later)];
      }
      assert ids[..|ids|] == ids;
      forall c | c in ids && old(rows)[c].target == |targets[c]| && (targets[c] == map[] ==> RowOk(old(rows)[c], map[]))
        ensures RowOk(rows[c], targets[c])
      {
        RefreshedIsOk(old(rows)[c], targets[c], now, later);
      }
    }
  }

  lemma ProjectTwice(row: Row, counts: Counts, now: int)
    ensures Project(Project(row, counts, now), counts, now) == Project(row, counts, now)
  {
  }

  lemma ProjectOperationTwice(row: Row, later: int)
    ensures ProjectOperation(ProjectOperation(row, later), later) == ProjectOperation(row, later)
  {
  }

  lemma RefreshedIsOk(row: Row, targets: map<int, Status>, now: int, later: int)
    requires row.target == |targets| && (targets == map[] ==> RowOk(row, map[]))
    ensures RowOk(Refreshed(row, targets, now, later), targets)
  {
    hide CountsOf;
  }

  // ---------------------------------------------------------------- why the locks come first

  /** Two transactions that have each skipped their own target of campaign 7, and are about to refresh it. */
  const SKIPPING := Txn(map[7 := Skipped], Some([7]), 0, None, None, false)

  const TWO_SKIPS := State(
    Tables(map[7 := map[1 := Pending, 2 := Pending]],
           map[7 := Row(2, Counts(0, 0, 0, 0), Expanding, None, false, None)]),
    map[1 := SKIPPING, 2 := SKIPPING])

  const COUNTED_TOGETHER := [Count(1), Count(2)]

  /** The rest of one refresh. */
  function Rest(title: int): seq<Event> {
    [Lock(title), WriteCampaigns(title, 0), WriteOperations(title, 0), Commit(title)]
  }

  lemma OneSkip()
    ensures CountsOf(map[1 := Skipped, 2 := Pending]) == Counts(1, 1, 0, 1)
    ensures CountsOf(map[1 := Pending, 2 := Skipped]) == Counts(1, 1, 0, 1)
  {
    var m, n: map<int, Status> := map[1 := Skipped, 2 := Pending], map[1 := Pending, 2 := Skipped];
    assert (set t | t in m && !m[t].Pending?) == {1} && (set t | t in n && !n[t].Pending?) == {2};
    assert (set t | t in m && IsTerminal(m[t])) == {1} && (set t | t in n && IsTerminal(n[t])) == {2};
    assert (set t | t in m && m[t].Failed?) == {} && (set t | t in n && n[t].Failed?) == {};
    assert (set t | t in m && m[t].Skipped?) == {1} && (set t | t in n && n[t].Skipped?) == {2};
  }

  /** After the early count, one refresh commits what it counted. */
  lemma RestCommits(s: State, title: int)
    requires title in s.open && s.open[title] == SKIPPING.(counted := Some(map[7 := Counts(1, 1, 0, 1)]))
    requires s.tables.targets.Keys == {7} && s.tables.rows.Keys == {7} && title in s.tables.targets[7]
    requires s.tables.rows[7].target == 2
    requires forall u | u in s.open && u != title :: s.open[u].held == 0
    ensures var t := Run(CountFirst, s, Rest(title));
            && t.open == s.open - {title}
            && t.tables.targets == map[7 := s.tables.targets[7][title := Skipped]]
            && t.tables.rows.Keys == {7} && t.tables.targets[7].Keys == s.tables.targets[7].Keys
            && t.tables.rows[7].status == Expanding && t.tables.rows[7].counts == Counts(1, 1, 0, 1)
            && t.tables.rows[7].target == 2
  {
    var x := s.open[title];
    assert !LockedByOther(s, title, 7);
    assert s.tables.targets[7] != map[] by { assert title in s.tables.targets[7]; }
    var y := x.(held := 1);
    var row := Project(s.tables.rows[7], Counts(1, 1, 0, 1), 0);
    LocksSeven(s, title);
    WritesSeven(s, title, y, row);
    var operated := Put(s, title, y.(written := true, rows := Some(map[7 := ProjectOperation(row, 0)])));
    hide Step, Run;
    RunFour(CountFirst, s, Lock(title), WriteCampaigns(title, 0), WriteOperations(title, 0), Commit(title));
    CommitsSeven(s, title, operated);
  }

  lemma LocksSeven(s: State, title: int)
    requires title in s.open && s.open[title].ids == Some([7]) && s.open[title].held == 0 && !LockedByOther(s, title, 7)
    ensures Step(CountFirst, s, Lock(title)) == Put(s, title, s.open[title].(held := 1))
  {
  }

  /** The two updates of the refresh. */
  lemma WritesSeven(s: State, title: int, y: Txn, row: Row)
    requires y == SKIPPING.(held := 1, counted := Some(map[7 := Counts(1, 1, 0, 1)]))
    requires 7 in s.tables.targets && s.tables.targets[7] != map[] && 7 in s.tables.rows
    requires row == Project(s.tables.rows[7], Counts(1, 1, 0, 1), 0)
    ensures var wrote := Put(s, title, y.(rows := Some(map[7 := row])));
            var operated := Put(s, title, y.(written := true, rows := Some(map[7 := ProjectOperation(row, 0)])));
            && Step(CountFirst, Put(s, title, y), WriteCampaigns(title, 0)) == wrote
            && Step(CountFirst, wrote, WriteOperations(title, 0)) == operated
  {
    hide Project, ProjectOperation;
    var wrote := Put(s, title, y.(rows := Some(map[7 := row])));
    assert Step(CountFirst, Put(s, title, y), WriteCampaigns(title, 0)).open[title].rows.value == map[7 := row];
    assert Step(CountFirst, wrote, WriteOperations(title, 0)).open[title].rows.value
             == map[7 := ProjectOperation(row, 0)];
  }

  lemma CommitsSeven(s: State, title: int, t: State)
    requires title in t.open && t.open[title].written && t.open[title].rows.Some? && t.tables == s.tables
    requires t.open == s.open[title := t.open[title]]
    requires t.open[title].changes == map[7 := Skipped] && t.open[title].rows.value.Keys == {7}
    requires s.tables.targets.Keys == {7} && s.tables.rows.Keys == {7}
    ensures var done := Step(CountFirst, t, Commit(title));
            && done.open == s.open - {title}
            && done.tables.targets == map[7 := s.tables.targets[7][title := Skipped]]
            && done.tables.rows == map[7 := t.open[title].rows.value[7]]
  {
  }

  lemma RunFour(order: Order, s: State, a: Event, b: Event, c: Event, d: Event)
    ensures Run(order, s, [a, b, c, d]) == Step(order, Step(order, Step(order, Step(order, s, a), b), c), d)
  {
    assert [a, b, c, d][1..] == [b, c, d] && [b, c, d][1..] == [c, d] && [c, d][1..] == [d];
    assert Run(order, s, [a, b, c, d]) == Run(order, Step(order, s, a), [b, c, d]);
    var t := Step(order, Step(order, s, a), b);
    assert Run(order, Step(order, s, a), [b, c, d]) == Run(order, t, [c, d]);
    assert Run(order, t, [c, d]) == Run(order, Step(order, t, c), [d]);
    assert Run(order, Step(order, t, c), [d]) == Step(order, Step(order, t, c), d) by { assert [d][1..] == []; }
  }

  lemma TwoPending()
    ensures var m: map<int, Status> := map[1 := Pending, 2 := Pending];
            |m| == 2 && CountsOf(m) == Counts(0, 0, 0, 0)
  {
    var m: map<int, Status> := map[1 := Pending, 2 := Pending];
    assert m.Keys == {1, 2} && |m| == |m.Keys|;
    assert (set t | t in m && !m[t].Pending?) == {};
    assert (set t | t in m && IsTerminal(m[t])) == {};
    assert (set t | t in m && m[t].Failed?) == {};
    assert (set t | t in m && m[t].Skipped?) == {};
  }

  lemma TwoSkipsTables()
    ensures TablesOk(TWO_SKIPS.tables)
  {
    TwoPending();
    hide CountsOf;
  }

  lemma TwoSkipsIsOk()
    ensures Inv(TWO_SKIPS)
  {
    TwoSkipsTables();
    hide TablesOk, WrittenOk, CountsOf;
    var tables := TWO_SKIPS.tables;
    assert TxnOk(tables, 1, SKIPPING);
    assert TxnOk(tables, 2, SKIPPING);
    assert LocksOk(TWO_SKIPS);
  }

  /** The counts both transactions take before either has a lock. */
  lemma FirstCountsOne()
    ensures var x := SKIPPING.(counted := Some(map[7 := Counts(1, 1, 0, 1)]));
            Step(CountFirst, TWO_SKIPS, Count(1)) == TWO_SKIPS.(open := map[1 := x, 2 := SKIPPING])
  {
    OneSkip();
    assert TWO_SKIPS.tables.targets[7][1 := Skipped] == map[1 := Skipped, 2 := Pending];
    hide CountsOf;
    assert Step(CountFirst, TWO_SKIPS, Count(1)).open[1].counted.value == map[7 := Counts(1, 1, 0, 1)];
  }

  lemma SecondCountsOne()
    ensures var x := SKIPPING.(counted := Some(map[7 := Counts(1, 1, 0, 1)]));
            Step(CountFirst, TWO_SKIPS.(open := map[1 := x, 2 := SKIPPING]), Count(2))
              == TWO_SKIPS.(open := map[1 := x, 2 := x])
  {
    OneSkip();
    assert TWO_SKIPS.tables.targets[7][2 := Skipped] == map[1 := Pending, 2 := Skipped];
    hide CountsOf;
    var x := SKIPPING.(counted := Some(map[7 := Counts(1, 1, 0, 1)]));
    var s := TWO_SKIPS.(open := map[1 := x, 2 := SKIPPING]);
    assert Step(CountFirst, s, Count(2)).open[2].counted.value == map[7 := Counts(1, 1, 0, 1)];
  }

  lemma BothCountOne()
    ensures var x := SKIPPING.(counted := Some(map[7 := Counts(1, 1, 0, 1)]));
            Run(CountFirst, TWO_SKIPS, COUNTED_TOGETHER) == TWO_SKIPS.(open := map[1 := x, 2 := x])
  {
    FirstCountsOne();
    SecondCountsOne();
    hide Step;
    assert COUNTED_TOGETHER[1..] == [Count(2)] && [Count(2)][1..] == [];
  }

  /** Counting before locking loses an update: both refreshes commit, every target has been skipped, and
  the campaign still says that one is left. */
  lemma CountingFirstLosesAnUpdate() returns (done: State)
    ensures Inv(TWO_SKIPS)
    ensures done == Run(CountFirst, Run(CountFirst, Run(CountFirst, TWO_SKIPS, COUNTED_TOGETHER), Rest(1)), Rest(2))
    ensures done.open == map[]
    ensures done.tables.targets == map[7 := map[1 := Skipped, 2 := Skipped]]
    ensures 7 in done.tables.rows && done.tables.rows[7].status == Expanding && done.tables.rows[7].counts.terminal == 1
  {
    TwoSkipsIsOk();
    BothCountOne();
    hide Run, Inv, LockedByOther;
    var s := Run(CountFirst, TWO_SKIPS, COUNTED_TOGETHER);
    var t := Run(CountFirst, s, Rest(1));
    done := Run(CountFirst, t, Rest(2));
    RestCommits(s, 1);
    RestCommits(t, 2);
    var m := TWO_SKIPS.tables.targets[7];
    assert m[1 := Skipped][2 := Skipped] == map[1 := Skipped, 2 := Skipped];
  }
}
