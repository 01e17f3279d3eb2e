/** Match-draft status under concurrent finishers.

A transaction that ends an OCR job locks the running match drafts that show the job, then the job row,
writes the job, recomputes the drafts and commits. Here its statements are separate steps, so that any
number of transactions interleave under READ COMMITTED: a statement sees committed rows and the
transaction's own writes. */
module MatchDrafts {
  import opened Wrappers
  import LockOrder

  /** Rows are named by their position in the order in which the statements lock them. */
  type DraftId = nat
  type JobId = nat
  type ImageId = nat
  type TxId = nat

  datatype Ending = Succeeded(warnings: nat) | Failed | Cancelled

  datatype JobStatus = Active | Over(ending: Ending)

  datatype Status = OcrRunning | OcrFailed | NeedsReview | DraftReady

  datatype Lock = DraftRow(draft: DraftId) | JobRow(job: JobId) | ImageRow(image: ImageId)

  datatype Phase = LockDrafts | LockJob | LockImage | Write | Sync | Ready

  /** One open transaction. `goal` is the ending it gives its job, if it ends it; `image` is the source
  image a claim locks; `drafts` is what is left of its match-draft locks. */
  datatype Tx = Tx(
    job: JobId, goal: Option<Ending>, image: Option<ImageId>, phase: Phase,
    drafts: set<DraftId>, held: set<Lock>, projected: map<DraftId, Status>)

  /** The committed rows. `slots` lists the jobs behind the filled slots of a draft; such a job may be
  missing from `jobs`. */
  datatype Rows = Rows(slots: map<DraftId, seq<JobId>>, jobs: map<JobId, JobStatus>, status: map<DraftId, Status>)

  /** `locking` is true of the worker; false describes the same transactions without the draft locks. */
  datatype Db = Db(rows: Rows, txs: map<TxId, Tx>, locking: bool)

  datatype Event =
    | Begin(tx: TxId, job: JobId, goal: Option<Ending>, image: Option<ImageId>)
    | Advance(tx: TxId)
    | Abort(tx: TxId)

  predicate Ended(jobs: map<JobId, JobStatus>, j: JobId) { j in jobs && jobs[j].Over? }

  predicate AllOver(jobs: map<JobId, JobStatus>, slots: seq<JobId>) {
    forall j | j in slots :: Ended(jobs, j)
  }

  /** The CASE expression of `sync_match_draft_status`. */
  function Projection(jobs: map<JobId, JobStatus>, slots: seq<JobId>): Status {
    if !AllOver(jobs, slots) then OcrRunning
    else if exists j | j in slots :: !jobs[j].ending.Succeeded? then OcrFailed
    else if exists j | j in slots :: jobs[j].ending.warnings > 0 then NeedsReview
    else DraftReady
  }

  predicate Shows(rows: Rows, d: DraftId, j: JobId) { d in rows.slots && j in rows.slots[d] }

  /** The drafts that the lock statement and the projection select. */
  function RunningDrafts(rows: Rows, j: JobId): set<DraftId> {
    set d | d in rows.status && rows.status[d] == OcrRunning && Shows(rows, d, j)
  }

  predicate Free(db: Db, t: TxId, l: Lock) {
    forall u | u in db.txs && u != t :: l !in db.txs[u].held
  }

  predicate Least(d: DraftId, ds: set<DraftId>) { d in ds && forall e | e in ds :: d <= e }

  lemma LeastExists(ds: set<DraftId>)
    requires ds != {}
    ensures exists d :: Least(d, ds)
  {
    var d :| d in ds;
    if ds == {d} {
      assert Least(d, ds);
    } else {
      LeastExists(ds - {d});
      assert forall e | e in ds :: e == d || e in ds - {d};
      var e :| Least(e, ds - {d});
      assert Least(if d < e then d else e, ds);
    }
  }

  function Min(ds: set<DraftId>): (d: DraftId)
    requires ds != {}
    ensures Least(d, ds)
  {
    LeastExists(ds);
    var d :| Least(d, ds);
    d
  }

  /** The jobs as the transaction sees them once it has written its own. */
  function Seen(jobs: map<JobId, JobStatus>, tx: Tx): map<JobId, JobStatus> {
    if tx.goal.Some? && tx.job in jobs then jobs[tx.job := Over(tx.goal.value)] else jobs
  }

  /** What the projection statement would write. */
  function Projected(rows: Rows, tx: Tx): map<DraftId, Status> {
    map d | d in RunningDrafts(rows, tx.job) && Projection(Seen(rows.jobs, tx), rows.slots[d]) != OcrRunning
      :: Projection(Seen(rows.jobs, tx), rows.slots[d])
  }

  /** The row locks that the next statement needs. */
  function Wanted(rows: Rows, tx: Tx): set<Lock> {
    match tx.phase
    case LockDrafts => if tx.drafts != {} then {DraftRow(Min(tx.drafts))} else {}
    case LockJob => {JobRow(tx.job)}
    case LockImage => if tx.image.Some? then {ImageRow(tx.image.value)} else {}
    case Write => {}
    case Sync => set d | d in Projected(rows, tx) :: DraftRow(d)
    case Ready => {}
  }

  predicate Blocked(db: Db, t: TxId)
    requires t in db.txs
  {
    exists l | l in Wanted(db.rows, db.txs[t]) :: !Free(db, t, l)
  }

  /** The transaction after its next statement, or nothing if it rolled back: a finisher that finds the
  job no longer active has lost its claim. */
  function After(rows: Rows, tx: Tx): Option<Tx> {
    var locked := tx.(held := tx.held + Wanted(rows, tx));
    match tx.phase
    case LockDrafts =>
      if tx.drafts == {} then Some(tx.(phase := LockJob))
      else Some(locked.(drafts := tx.drafts - {Min(tx.drafts)}))
    case LockJob =>
      if tx.job in rows.jobs && rows.jobs[tx.job].Active? then Some(locked.(phase := LockImage)) else None
    case LockImage => Some(locked.(phase := Write))
    case Write => Some(tx.(phase := if tx.goal.Some? then Sync else Ready))
    case Sync => Some(locked.(projected := Projected(rows, tx), phase := Ready))
    case Ready => Some(tx)
  }

  /** The committed rows once the writes of the transaction are among them. */
  function Written(rows: Rows, tx: Tx): Rows {
    rows.(jobs := Seen(rows.jobs, tx), status := rows.status + tx.projected)
  }

  /** The next statement of a transaction that is not blocked. */
  function Statement(db: Db, t: TxId): Db
    requires t in db.txs
  {
    var tx := db.txs[t];
    if tx.phase.Ready? then db.(rows := Written(db.rows, tx), txs := db.txs - {t})
    else
      match After(db.rows, tx)
      case Some(next) => db.(txs := db.txs[t := next])
      case None => db.(txs := db.txs - {t})
  }

  function Step(db: Db, e: Event): Db {
    match e
    case Begin(t, j, goal, image) =>
      if t in db.txs then db
      else
        var drafts := if db.locking then RunningDrafts(db.rows, j) else {};
        db.(txs := db.txs[t := Tx(j, goal, image, LockDrafts, drafts, {}, map[])])
    case Advance(t) => if t !in db.txs || Blocked(db, t) then db else Statement(db, t)
    case Abort(t) => db.(txs := db.txs - {t})
  }

  function Run(db: Db, es: seq<Event>): Db
    decreases es
  {
    if es == [] then db else Run(Step(db, es[0]), es[1..])
  }

  // ---------------------------------------------------------------- the invariant

  /** The committed rows: a draft is running exactly until all its jobs are over. */
  ghost predicate DraftOk(rows: Rows, d: DraftId)
    requires d in rows.status && d in rows.slots
  {
    rows.status[d] == if rows.slots[d] == [] then OcrRunning else Projection(rows.jobs, rows.slots[d])
  }

  /** What the transaction has locked so far, and in which order. */
  ghost predicate LocksOk(tx: Tx) {
    && (forall d: DraftId, e | DraftRow(d) in tx.held && e in tx.drafts :: d < e)
    && (!tx.phase.LockDrafts? ==> tx.drafts == {})
    && (forall j: JobId | JobRow(j) in tx.held :: !tx.phase.LockDrafts? && !tx.phase.LockJob?)
    && (forall i: ImageId | ImageRow(i) in tx.held ::
         !tx.phase.LockDrafts? && !tx.phase.LockJob? && !tx.phase.LockImage?)
    && (tx.phase.LockImage? || tx.phase.Write? || tx.phase.Sync? || tx.phase.Ready? ==> JobRow(tx.job) in tx.held)
  }

  /** Every running draft that shows the job is locked, or still on the list of locks to take. */
  ghost predicate Covered(rows: Rows, tx: Tx) {
    forall d | d in RunningDrafts(rows, tx.job) :: d in tx.drafts || DraftRow(d) in tx.held
  }

  ghost predicate ReadyOk(rows: Rows, tx: Tx) {
    && (tx.phase.Sync? ==> tx.goal.Some?)
    && (tx.phase.Ready? && tx.goal.Some? ==> tx.projected == Projected(rows, tx))
    && (tx.goal.None? || !tx.phase.Ready? ==> tx.projected == map[])
  }

  ghost predicate TxOk(rows: Rows, tx: Tx) {
    && LocksOk(tx) && Covered(rows, tx) && ReadyOk(rows, tx)
    && (JobRow(tx.job) in tx.held ==> tx.job in rows.jobs && rows.jobs[tx.job].Active?)
  }

  ghost predicate RowsOk(rows: Rows) {
    rows.status.Keys == rows.slots.Keys && forall d | d in rows.status :: DraftOk(rows, d)
  }

  ghost predicate Exclusive(txs: map<TxId, Tx>) {
    forall t, u, l | t in txs && u in txs && l in txs[t].held && l in txs[u].held :: t == u
  }

  ghost predicate Inv(db: Db) {
    && db.locking && RowsOk(db.rows) && Exclusive(db.txs)
    && forall t | t in db.txs :: TxOk(db.rows, db.txs[t])
  }

  // ---------------------------------------------------------------- one step

  /** The projection has nothing left to lock: its drafts were locked before the job was. */
  lemma SyncNeedsNoLock(rows: Rows, tx: Tx)
    requires TxOk(rows, tx) && tx.phase.Sync?
    ensures Wanted(rows, tx) <= tx.held
  {
    assert Covered(rows, tx);
  }

  /** A statement other than COMMIT keeps what the transaction relies on. */
  lemma AfterKeeps(rows: Rows, tx: Tx)
    requires TxOk(rows, tx) && !tx.phase.Ready?
    ensures After(rows, tx).Some? ==>
              TxOk(rows, After(rows, tx).value) && After(rows, tx).value.held <= tx.held + Wanted(rows, tx)
  {
    if tx.phase.Sync? {
      SyncNeedsNoLock(rows, tx);
    }
  }

  lemma StatementKeeps(db: Db, t: TxId)
    requires Inv(db) && t in db.txs && !Blocked(db, t) && !db.txs[t].phase.Ready?
    ensures Inv(Statement(db, t)) && Statement(db, t).rows == db.rows
  {
    hide TxOk, RowsOk;
    AfterKeeps(db.rows, db.txs[t]);
    var after := After(db.rows, db.txs[t]);
    if after.Some? {
      forall u, l | u in db.txs && u != t && l in after.value.held
        ensures l !in db.txs[u].held
      {
        if l in Wanted(db.rows, db.txs[t]) {
          assert Free(db, t, l);
        }
      }
    }
  }

  /** No draft starts to run with a commit. */
  lemma CommitStartsNothing(rows: Rows, tx: Tx, j: JobId)
    requires ReadyOk(rows, tx) && tx.phase.Ready?
    ensures RunningDrafts(Written(rows, tx), j) <= RunningDrafts(rows, j)
  {
    hide Projection;
  }

  /** A draft that one transaction has locked is out of reach for the commit of another. */
  lemma LockedDraftIsSpared(db: Db, t: TxId, u: TxId, d: DraftId)
    requires Inv(db) && t in db.txs && u in db.txs && t != u && db.txs[t].phase.Ready?
    requires db.txs[u].phase.Ready? && d in RunningDrafts(db.rows, db.txs[u].job)
    ensures var (rows, tx, other) := (db.rows, db.txs[t], db.txs[u]);
            && d !in tx.projected && other.job != tx.job
            && (tx.goal.Some? ==> !Shows(rows, d, tx.job))
  {
    var (rows, tx, other) := (db.rows, db.txs[t], db.txs[u]);
    hide RowsOk, Projection, DraftOk;
    assert TxOk(rows, tx) && TxOk(rows, other);
    assert JobRow(other.job) in other.held && JobRow(tx.job) in tx.held;
    assert DraftRow(d) in other.held;
    assert d in RunningDrafts(rows, tx.job) ==> DraftRow(d) in tx.held;
  }

  lemma SameProjection(rows: Rows, tx: Tx, other: Tx, d: DraftId)
    requires d in rows.slots && other.job != tx.job && (tx.goal.Some? ==> !Shows(rows, d, tx.job))
    ensures Projection(Seen(Written(rows, tx).jobs, other), rows.slots[d])
              == Projection(Seen(rows.jobs, other), rows.slots[d])
  {
  }

  lemma CommitSparesProjection(db: Db, t: TxId, u: TxId)
    requires Inv(db) && t in db.txs && u in db.txs && t != u && db.txs[t].phase.Ready? && db.txs[u].phase.Ready?
    ensures Projected(Written(db.rows, db.txs[t]), db.txs[u]) == Projected(db.rows, db.txs[u])
  {
    var (tx, other) := (db.txs[t], db.txs[u]);
    var rows := Written(db.rows, tx);
    hide Projection, Inv, TxOk;
    assert ReadyOk(db.rows, tx) by { ReadyTx(db, t); }
    CommitStartsNothing(db.rows, tx, other.job);
    hide ReadyOk;
    forall d | d in RunningDrafts(db.rows, other.job)
      ensures d in RunningDrafts(rows, other.job)
      ensures Projection(Seen(rows.jobs, other), rows.slots[d])
                == Projection(Seen(db.rows.jobs, other), db.rows.slots[d])
    {
      LockedDraftIsSpared(db, t, u, d);
      SameProjection(db.rows, tx, other, d);
    }
    assert RunningDrafts(rows, other.job) == RunningDrafts(db.rows, other.job);
  }

  lemma ReadyTx(db: Db, t: TxId)
    requires Inv(db) && t in db.txs
    ensures ReadyOk(db.rows, db.txs[t]) && TxOk(db.rows, db.txs[t])
  {
  }

  /** A commit by `t` leaves every draft that another transaction has locked as that one saw it. */
  lemma CommitSparesOthers(db: Db, t: TxId, u: TxId)
    requires Inv(db) && t in db.txs && u in db.txs && t != u && db.txs[t].phase.Ready?
    ensures TxOk(Written(db.rows, db.txs[t]), db.txs[u])
  {
    hide Projection, Projected, RowsOk, RunningDrafts;
    var (tx, other) := (db.txs[t], db.txs[u]);
    assert TxOk(db.rows, tx) && TxOk(db.rows, other) && JobRow(tx.job) in tx.held;
    CommitStartsNothing(db.rows, tx, other.job);
    if other.phase.Ready? {
      CommitSparesProjection(db, t, u);
    }
  }

  /** A commit leaves every draft equal to the projection of its committed jobs. */
  lemma CommitKeepsRows(rows: Rows, tx: Tx)
    requires RowsOk(rows) && TxOk(rows, tx) && tx.phase.Ready?
    ensures RowsOk(Written(rows, tx))
  {
    var next := Written(rows, tx);
    assert tx.job in rows.jobs && rows.jobs[tx.job].Active?;
    forall d | d in next.status
      ensures DraftOk(next, d)
    {
      if tx.goal.Some? {
        if Shows(rows, d, tx.job) {
          assert !AllOver(rows.jobs, rows.slots[d]);
          assert d in RunningDrafts(rows, tx.job);
        } else {
          assert Projection(next.jobs, rows.slots[d]) == Projection(rows.jobs, rows.slots[d]);
        }
      }
    }
  }

  lemma CommitKeeps(db: Db, t: TxId)
    requires Inv(db) && t in db.txs && db.txs[t].phase.Ready?
    ensures Inv(Statement(db, t))
  {
    CommitKeepsRows(db.rows, db.txs[t]);
    forall u | u in db.txs && u != t
      ensures TxOk(Written(db.rows, db.txs[t]), db.txs[u])
    {
      CommitSparesOthers(db, t, u);
    }
  }

  lemma StepKeeps(db: Db, e: Event)
    requires Inv(db)
    ensures Inv(Step(db, e))
  {
    if e.Advance? && e.tx in db.txs && !Blocked(db, e.tx) {
      if db.txs[e.tx].phase.Ready? {
        CommitKeeps(db, e.tx);
      } else {
        StatementKeeps(db, e.tx);
      }
    }
  }

  // ---------------------------------------------------------------- whole runs

  lemma {:induction false} RunKeeps(db: Db, es: seq<Event>)
    requires Inv(db)
    ensures Inv(Run(db, es)) && Run(db, es).rows.slots == db.rows.slots
    decreases es
  {
    if es != [] {
      StepKeeps(db, es[0]);
      RunKeeps(Step(db, es[0]), es[1..]);
    }
  }

  /** No transaction is open and the committed rows agree. */
  ghost predicate Initial(db: Db) {
    db.locking && db.txs == map[] && RowsOk(db.rows)
  }

  /** No lost status: whatever finishers, claims, recoveries and aborts interleave, a committed draft has
  left `ocr_running` exactly when all its jobs are committed terminal, and it then shows failed or
  cancelled jobs before warnings before a ready draft. */
  lemma NoLostStatus(db: Db, es: seq<Event>, d: DraftId)
    requires Initial(db) && d in db.rows.slots && db.rows.slots[d] != []
    ensures var rows := Run(db, es).rows;
            && rows.slots == db.rows.slots && d in rows.status
            && (rows.status[d] != OcrRunning <==> AllOver(rows.jobs, rows.slots[d]))
            && (rows.status[d] == OcrFailed <==>
                  AllOver(rows.jobs, rows.slots[d]) && exists j | j in rows.slots[d] :: !rows.jobs[j].ending.Succeeded?)
            && (rows.status[d] == DraftReady <==>
                  AllOver(rows.jobs, rows.slots[d])
                  && forall j | j in rows.slots[d] :: rows.jobs[j].ending == Succeeded(0))
  {
    RunKeeps(db, es);
    assert DraftOk(Run(db, es).rows, d);
  }

  /** A commit writes exactly the ending that its transaction was given, to exactly its job; a transaction without
  one writes no job. */
  lemma CommitsWhatWasAsked(db: Db, t: TxId)
    requires Inv(db) && t in db.txs && db.txs[t].phase.Ready?
    ensures var (tx, next) := (db.txs[t], Step(db, Advance(t)));
            && next.txs == db.txs - {t} && next.rows.jobs.Keys == db.rows.jobs.Keys && tx.job in db.rows.jobs
            && forall j | j in db.rows.jobs ::
                 next.rows.jobs[j] == if j == tx.job && tx.goal.Some? then Over(tx.goal.value) else db.rows.jobs[j]
  {
    assert TxOk(db.rows, db.txs[t]) && JobRow(db.txs[t].job) in db.txs[t].held;
    hide Projection, TxOk, RowsOk;
  }

  /** Only a commit changes committed rows, and a transaction keeps the job and the ending it began with. */
  lemma OnlyCommitsWrite(db: Db, e: Event)
    requires Inv(db) && !(e.Advance? && e.tx in db.txs && db.txs[e.tx].phase.Ready?)
    ensures Step(db, e).rows == db.rows
    ensures forall t | t in db.txs && t in Step(db, e).txs ::
              Step(db, e).txs[t].job == db.txs[t].job && Step(db, e).txs[t].goal == db.txs[t].goal
    ensures e.Begin? && e.tx !in db.txs ==>
              e.tx in Step(db, e).txs && Step(db, e).txs[e.tx].job == e.job && Step(db, e).txs[e.tx].goal == e.goal
  {
    hide Projection, TxOk, RowsOk, Projected, RunningDrafts, Wanted;
  }

  /** An ended job keeps its ending, and a draft that left `ocr_running` keeps its status. */
  lemma {:induction false} EndingsStay(db: Db, es: seq<Event>, j: JobId, d: DraftId)
    requires Inv(db)
    ensures Ended(db.rows.jobs, j) ==>
              j in Run(db, es).rows.jobs && Run(db, es).rows.jobs[j] == db.rows.jobs[j]
    ensures d in db.rows.status && db.rows.status[d] != OcrRunning ==>
              d in Run(db, es).rows.status && Run(db, es).rows.status[d] == db.rows.status[d]
    decreases es
  {
    if es != [] {
      var e := es[0];
      StepKeeps(db, e);
      if e.Advance? && e.tx in db.txs && db.txs[e.tx].phase.Ready? {
        assert TxOk(db.rows, db.txs[e.tx]);
        assert JobRow(db.txs[e.tx].job) in db.txs[e.tx].held;
      }
      EndingsStay(Step(db, e), es[1..], j, d);
    }
  }

  // ---------------------------------------------------------------- waiting

  function RankOf(l: Lock): LockOrder.Rank {
    match l
    case DraftRow(d) => LockOrder.Rank(0, d)
    case JobRow(j) => LockOrder.Rank(1, j)
    case ImageRow(i) => LockOrder.Rank(2, i)
  }

  /** Who holds and who waits, as the lock manager sees it. A transaction in its lock phases asks for one
  row at a time; in the other phases it asks for none that it does not hold. */
  ghost function WaitsOf(db: Db): LockOrder.Waits<TxId> {
    LockOrder.Waits(
      map t | t in db.txs :: set l | l in db.txs[t].held :: RankOf(l),
      map t | t in db.txs && Blocked(db, t) :: RankOf(Asked(db.rows, db.txs[t])))
  }

  function Asked(rows: Rows, tx: Tx): Lock {
    if tx.phase.LockDrafts? && tx.drafts != {} then DraftRow(Min(tx.drafts))
    else if tx.phase.LockImage? && tx.image.Some? then ImageRow(tx.image.value)
    else JobRow(tx.job)
  }

  /** A transaction that waits, waits for exactly one row, which ranks above all it holds. */
  lemma WaitsForOne(db: Db, t: TxId)
    requires Inv(db) && t in db.txs && Blocked(db, t)
    ensures Wanted(db.rows, db.txs[t]) == {Asked(db.rows, db.txs[t])}
    ensures forall l | l in db.txs[t].held :: LockOrder.Below(RankOf(l), RankOf(Asked(db.rows, db.txs[t])))
  {
    if db.txs[t].phase.Sync? {
      SyncIsNotBlocked(db, t);
    }
  }

  lemma SyncIsNotBlocked(db: Db, t: TxId)
    requires Inv(db) && t in db.txs && db.txs[t].phase.Sync?
    ensures !Blocked(db, t)
  {
    SyncNeedsNoLock(db.rows, db.txs[t]);
    assert forall l | l in Wanted(db.rows, db.txs[t]) :: Free(db, t, l);
  }

  lemma WaitsAscend(db: Db)
    requires Inv(db)
    ensures LockOrder.Ascending(WaitsOf(db))
  {
    hide TxOk, RowsOk;
    forall t, r | t in WaitsOf(db).wanted && r in WaitsOf(db).held[t]
      ensures LockOrder.Below(r, WaitsOf(db).wanted[t])
    {
      WaitsForOne(db, t);
    }
  }

  /** No deadlock: in no reachable state do transactions wait for each other in a circle. */
  lemma NoDeadlock(db: Db, es: seq<Event>, ts: seq<TxId>)
    requires Initial(db)
    ensures !LockOrder.IsCycle(WaitsOf(Run(db, es)), ts)
  {
    RunKeeps(db, es);
    WaitsAscend(Run(db, es));
    LockOrder.NoCycle(WaitsOf(Run(db, es)), ts);
  }

  /** How many statements a transaction still has before it. */
  function Remaining(tx: Tx): nat {
    |tx.drafts| + match tx.phase
                  case LockDrafts => 6
                  case LockJob => 5
                  case LockImage => 4
                  case Write => 3
                  case Sync => 2
                  case Ready => 1
  }

  lemma StatementsRunOut(db: Db, t: TxId)
    requires t in db.txs && !Blocked(db, t) && t in Step(db, Advance(t)).txs
    ensures Remaining(Step(db, Advance(t)).txs[t]) < Remaining(db.txs[t])
  {
    hide Projected, Wanted, Blocked, Written;
    var tx := db.txs[t];
    if tx.phase.LockDrafts? && tx.drafts != {} {
      assert Least(Min(tx.drafts), tx.drafts);
    }
  }

  lemma SomeoneIsNotBlocked(db: Db) returns (t: TxId)
    requires Inv(db) && db.txs != map[]
    ensures t in db.txs && !Blocked(db, t)
  {
    hide TxOk, RowsOk;
    var w := WaitsOf(db);
    WaitsAscend(db);
    assert w.held.Keys == db.txs.Keys;
    t := LockOrder.SomeoneProceeds(w);
    if Blocked(db, t) {
      WaitsForOne(db, t);
    }
  }

  /** While transactions are open one of them can run its next statement, and comes closer to its end. */
  lemma SomeoneAdvances(db: Db, es: seq<Event>) returns (t: TxId)
    requires Initial(db) && Run(db, es).txs != map[]
    ensures var now := Run(db, es);
            && t in now.txs && !Blocked(now, t)
            && (t in Step(now, Advance(t)).txs ==> Remaining(Step(now, Advance(t)).txs[t]) < Remaining(now.txs[t]))
  {
    RunKeeps(db, es);
    t := SomeoneIsNotBlocked(Run(db, es));
    if t in Step(Run(db, es), Advance(t)).txs {
      StatementsRunOut(Run(db, es), t);
    }
  }

  // ---------------------------------------------------------------- without the draft locks

  lemma RunOne(db: Db, e: Event, es: seq<Event>)
    ensures Run(db, [e] + es) == Run(Step(db, e), es)
  {
    assert ([e] + es)[1..] == es;
  }

  /** A transaction that goes for its job alone, with nothing in its way. */
  function Alone(j: JobId, phase: Phase, held: set<Lock>): Tx {
    Tx(j, Some(Succeeded(0)), None, phase, {}, held, map[])
  }

  lemma OneStatement(db: Db, t: TxId, tx: Tx, next: Tx)
    requires t in db.txs && db.txs[t] == tx && !tx.phase.Ready?
    requires After(db.rows, tx) == Some(next)
    requires forall l | l in Wanted(db.rows, tx) :: Free(db, t, l)
    ensures Step(db, Advance(t)) == db.(txs := db.txs[t := next])
  {
  }

  /** Without the draft locks a transaction reaches its projection holding only its job. */
  lemma {:induction false} FourStatements(db: Db, t: TxId, j: JobId, es: seq<Event>)
    requires t in db.txs && db.txs[t] == Alone(j, LockDrafts, {})
    requires j in db.rows.jobs && db.rows.jobs[j].Active? && Free(db, t, JobRow(j))
    ensures var a := Advance(t);
            Run(db, [a] + ([a] + ([a] + ([a] + es)))) == Run(db.(txs := db.txs[t := Alone(j, Sync, {JobRow(j)})]), es)
  {
    var a, locks := Advance(t), {JobRow(j)};
    var one := db.(txs := db.txs[t := Alone(j, LockJob, {})]);
    var two := db.(txs := db.txs[t := Alone(j, LockImage, locks)]);
    var three := db.(txs := db.txs[t := Alone(j, Write, locks)]);
    var four := db.(txs := db.txs[t := Alone(j, Sync, locks)]);
    assert {} + locks == locks && locks + {} == locks;
    OneStatement(db, t, Alone(j, LockDrafts, {}), Alone(j, LockJob, {}));
    OneStatement(one, t, Alone(j, LockJob, {}), Alone(j, LockImage, locks));
    OneStatement(two, t, Alone(j, LockImage, locks), Alone(j, Write, locks));
    OneStatement(three, t, Alone(j, Write, locks), Alone(j, Sync, locks));
    assert Step(one, a) == two && Step(two, a) == three && Step(three, a) == four;
    RunOne(db, a, [a] + ([a] + ([a] + es)));
    RunOne(one, a, [a] + ([a] + es));
    RunOne(two, a, [a] + es);
    RunOne(three, a, es);
  }

  /** One draft, running, with two active jobs. */
  const TWO_JOBS := Rows(map[0 := [0, 1]], map[0 := Active, 1 := Active], map[0 := OcrRunning])

  function Pair(phase0: Phase, held0: set<Lock>, phase1: Phase, held1: set<Lock>): Db {
    Db(TWO_JOBS, map[0 := Alone(0, phase0, held0), 1 := Alone(1, phase1, held1)], false)
  }

  lemma BothBegin(es: seq<Event>)
    ensures var goal := Some(Succeeded(0));
            Run(Db(TWO_JOBS, map[], false), [Begin(0, 0, goal, None)] + ([Begin(1, 1, goal, None)] + es))
            == Run(Pair(LockDrafts, {}, LockDrafts, {}), es)
  {
    var db, goal := Db(TWO_JOBS, map[], false), Some(Succeeded(0));
    var one := db.(txs := map[0 := Alone(0, LockDrafts, {})]);
    RunOne(db, Begin(0, 0, goal, None), [Begin(1, 1, goal, None)] + es);
    RunOne(one, Begin(1, 1, goal, None), es);
    assert Step(one, Begin(1, 1, goal, None)) == Pair(LockDrafts, {}, LockDrafts, {});
  }

  /** Each sees the other's job still active, so neither writes the draft. */
  lemma BothProject(es: seq<Event>)
    ensures var held0, held1 := {JobRow(0)}, {JobRow(1)};
            Run(Pair(Sync, held0, Sync, held1), [Advance(0)] + ([Advance(1)] + es))
              == Run(Pair(Ready, held0, Ready, held1), es)
  {
    var held0, held1 := {JobRow(0)}, {JobRow(1)};
    assert !Ended(Seen(TWO_JOBS.jobs, Alone(0, Sync, held0)), 1)
             && !Ended(Seen(TWO_JOBS.jobs, Alone(1, Sync, held1)), 0);
    assert 0 in TWO_JOBS.slots[0] && 1 in TWO_JOBS.slots[0];
    assert Projected(TWO_JOBS, Alone(0, Sync, held0)) == map[] == Projected(TWO_JOBS, Alone(1, Sync, held1));
    assert Wanted(TWO_JOBS, Alone(0, Sync, held0)) == {} == Wanted(TWO_JOBS, Alone(1, Sync, held1));
    assert held0 + {} == held0 && held1 + {} == held1;
    var db, one := Pair(Sync, held0, Sync, held1), Pair(Ready, held0, Sync, held1);
    OneStatement(db, 0, Alone(0, Sync, held0), Alone(0, Ready, held0));
    OneStatement(one, 1, Alone(1, Sync, held1), Alone(1, Ready, held1));
    assert Step(db, Advance(0)) == one && Step(one, Advance(1)) == Pair(Ready, held0, Ready, held1);
    RunOne(db, Advance(0), [Advance(1)] + es);
    RunOne(one, Advance(1), es);
  }

  lemma BothCommit()
    ensures var rows := Run(Pair(Ready, {JobRow(0)}, Ready, {JobRow(1)}), [Advance(0)] + ([Advance(1)] + [])).rows;
            rows == TWO_JOBS.(jobs := map[0 := Over(Succeeded(0)), 1 := Over(Succeeded(0))])
  {
    var db := Pair(Ready, {JobRow(0)}, Ready, {JobRow(1)});
    var one := Db(TWO_JOBS.(jobs := map[0 := Over(Succeeded(0)), 1 := Active]), map[1 := Alone(1, Ready, {JobRow(1)})],
                  false);
    assert TWO_JOBS.status + map[] == TWO_JOBS.status;
    assert Step(db, Advance(0)) == one;
    RunOne(db, Advance(0), [Advance(1)] + []);
    RunOne(one, Advance(1), []);
  }

  /** Two finishers of one draft that skip the draft locks: each projects before the other commits, and
  the draft stays `ocr_running` although both of its jobs are over. */
  lemma WithoutDraftLocksTheStatusIsLost()
    ensures exists db: Db, es ::
              && !db.locking && db.txs == map[] && RowsOk(db.rows) && 0 in db.rows.slots
              && AllOver(Run(db, es).rows.jobs, db.rows.slots[0])
              && 0 in Run(db, es).rows.status && Run(db, es).rows.status[0] == OcrRunning
  {
    hide Step, Run;
    var goal := Some(Succeeded(0));
    var commit := [Advance(0)] + ([Advance(1)] + []);
    var project := [Advance(0)] + ([Advance(1)] + commit);
    var second := [Advance(1)] + ([Advance(1)] + ([Advance(1)] + ([Advance(1)] + project)));
    var first := [Advance(0)] + ([Advance(0)] + ([Advance(0)] + ([Advance(0)] + second)));
    var es := [Begin(0, 0, goal, None)] + ([Begin(1, 1, goal, None)] + first);
    var db := Db(TWO_JOBS, map[], false);
    assert RowsOk(TWO_JOBS) by {
      assert 0 in TWO_JOBS.slots[0] && !Ended(TWO_JOBS.jobs, 0);
    }
    BothBegin(first);
    var start, half := Pair(LockDrafts, {}, LockDrafts, {}), Pair(Sync, {JobRow(0)}, LockDrafts, {});
    FourStatements(start, 0, 0, second);
    assert start.(txs := start.txs[0 := Alone(0, Sync, {JobRow(0)})]) == half;
    FourStatements(half, 1, 1, project);
    assert half.(txs := half.txs[1 := Alone(1, Sync, {JobRow(1)})]) == Pair(Sync, {JobRow(0)}, Sync, {JobRow(1)});
    BothProject(commit);
    BothCommit();
    assert AllOver(Run(db, es).rows.jobs, db.rows.slots[0]);
  }
}
