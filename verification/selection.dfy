/** Keyset scans over expired leases and over due jobs.

A query returns at most 64 rows behind the cursor, in key order, as the table is at that moment. The scan
moves the cursor row by row, so it can be cut short anywhere and go on later, while other workers add and
remove rows. */
module Selection {
  import opened Wrappers

  const PAGE := 64

  /** A row comparison: kind and id of a lease (with a third column of no weight), or availability, request
  time and id of a job. */
  datatype Key = Key(first: int, second: int, third: int)

  predicate Less(a: Key, b: Key) {
    a.first < b.first || (a.first == b.first && (a.second < b.second || (a.second == b.second && a.third < b.third)))
  }

  predicate Behind(after: Option<Key>, k: Key) { after.None? || Less(after.value, k) }

  /** The key order is strict and total, by the first column first. */
  lemma KeysAreOrdered(a: Key, b: Key, c: Key)
    ensures !(Less(a, b) && Less(b, a)) && (a == b || Less(a, b) || Less(b, a)) && !Less(a, a)
    ensures Less(a, b) && Less(b, c) ==> Less(a, c)
    ensures a.first < b.first ==> Less(a, b)
    ensures a.first == b.first && a.second < b.second ==> Less(a, b)
  {
  }

  predicate Ascending(keys: seq<Key>) { forall i, j | 0 <= i < j < |keys| :: Less(keys[i], keys[j]) }

  /** What the query may return: the first rows behind the cursor, all of them if the page is not full. */
  ghost predicate IsPage(rows: set<Key>, after: Option<Key>, page: seq<Key>) {
    && |page| <= PAGE
    && Ascending(page)
    && (forall k | k in page :: k in rows && Behind(after, k))
    && (|page| < PAGE ==> forall k | k in rows && Behind(after, k) :: k in page)
    && (|page| == PAGE ==> forall k | k in rows && Behind(after, k) :: k in page || Less(page[PAGE - 1], k))
  }

  // ---------------------------------------------------------------- one page

  predicate IsAfterAll(keys: seq<Key>, k: Key) { forall i | 0 <= i < |keys| :: Less(keys[i], k) }

  /** The query: the smallest keys behind the cursor, one after the other. */
  method Query(rows: set<Key>, after: Option<Key>) returns (page: seq<Key>)
    ensures IsPage(rows, after, page)
  {
    page := [];
    var rest := set k | k in rows && Behind(after, k);
    while rest != {} && |page| < PAGE
      invariant |page| <= PAGE && Ascending(page) && rest <= rows
      invariant forall k | k in page :: k in rows && Behind(after, k)
      invariant forall k | k in rest :: Behind(after, k) && IsAfterAll(page, k)
      invariant forall k | k in rows && Behind(after, k) :: k in page || k in rest
      decreases rest
    {
      var k := Smallest(rest);
      page := page + [k];
      rest := rest - {k};
    }
  }

  method Smallest(rows: set<Key>) returns (least: Key)
    requires rows != {}
    ensures least in rows && forall k | k in rows && k != least :: Less(least, k)
  {
    least :| least in rows;
    var rest := rows - {least};
    while rest != {}
      invariant rest <= rows && least in rows
      invariant forall k | k in rows && k !in rest && k != least :: Less(least, k)
      decreases rest
    {
      var k: Key :| k in rest;
      if Less(k, least) {
        least := k;
      }
      rest := rest - {k};
    }
  }

  datatype Outcome = Recovered | Contended | Broken

  datatype Progress = Progress(more: bool, deferred: bool)

  /** The scan of expired leases keeps its cursor between pages. */
  class RecoveryScan {
    var cursor: Option<Key>
    ghost var attempted: seq<Key>

    constructor ()
      ensures cursor.None? && attempted == []
    {
      cursor, attempted := None, [];
    }

    /** The loop of `recover_page`: every row of the page is tried once and in order, and a contended one does
    not stop the ones behind it. Only another error does; the cursor then stands on that row. */
    method RecoverRows(rows: set<Key>, page: seq<Key>, outcome: map<Key, Outcome>) returns (progress: Option<Progress>)
      requires IsPage(rows, cursor, page) && rows <= outcome.Keys
      modifies this
      ensures progress.Some? <==> forall k | k in page :: !outcome[k].Broken?
      ensures progress.Some? ==>
                && attempted == old(attempted) + page
                && progress.value == Progress(|page| == PAGE, exists k :: k in page && outcome[k].Contended?)
                && cursor == (if |page| == PAGE then Some(page[PAGE - 1]) else None)
      ensures progress.None? ==>
                (exists i ::
                   && 0 <= i < |page| && outcome[page[i]].Broken?
                        && (forall j | 0 <= j < i :: !outcome[page[j]].Broken?)
                   && attempted == old(attempted) + page[..i + 1] && cursor == Some(page[i]))
    {
      var more := |page| == PAGE;
      var deferred := false;
      for i := 0 to |page|
        invariant forall j | 0 <= j < i :: !outcome[page[j]].Broken?
        invariant deferred <==> exists j :: 0 <= j < i && outcome[page[j]].Contended?
        invariant attempted == old(attempted) + page[..i]
        invariant cursor == if i == 0 then old(cursor) else Some(page[i - 1])
      {
        assert page[i] in page && page[..i + 1] == page[..i] + [page[i]];
        cursor := Some(page[i]);
        attempted := attempted + [page[i]];
        match outcome[page[i]] {
          case Recovered =>
          case Contended => deferred := true;
          case Broken => return None;
        }
      }
      assert page[..|page|] == page;
      if !more {
        cursor := None;
      }
      return Some(Progress(more, deferred));
    }

    /** `recover_page` with its query. */
    method RecoverPage(rows: set<Key>, outcome: map<Key, Outcome>) returns (page: seq<Key>, progress: Option<Progress>)
      requires rows <= outcome.Keys
      modifies this
      ensures IsPage(rows, old(cursor), page)
      ensures progress.Some? ==>
                && attempted == old(attempted) + page
                && progress.value == Progress(|page| == PAGE, exists k :: k in page && outcome[k].Contended?)
                && cursor == (if |page| == PAGE then Some(page[PAGE - 1]) else None)
      ensures progress.None? ==> exists k :: k in outcome && outcome[k].Broken?
    {
      page := Query(rows, cursor);
      progress := RecoverRows(rows, page, outcome);
    }
  }

  // ---------------------------------------------------------------- a whole scan

  /** One query of a scan: the rows at that moment, the page, and how many of its keys were tried. */
  datatype Segment = Segment(rows: set<Key>, page: seq<Key>, done: nat)

  function Tried(s: Segment): seq<Key> {
    if s.done <= |s.page| then s.page[..s.done] else []
  }

  /** The scan has reached the end and resets its cursor. */
  predicate IsLast(s: Segment) { s.done == |s.page| < PAGE }

  function Attempted(segs: seq<Segment>): seq<Key>
    decreases segs
  {
    if segs == [] then [] else Attempted(segs[..|segs| - 1]) + Tried(segs[|segs| - 1])
  }

  /** The key tried last. */
  function Cursor(segs: seq<Segment>): Option<Key> { LastOf(Attempted(segs)) }

  function LastOf(keys: seq<Key>): Option<Key> { if keys == [] then None else Some(keys[|keys| - 1]) }

  /** Each query starts behind the key tried last; its page may be left at any row. */
  ghost predicate IsScan(segs: seq<Segment>)
    decreases segs
  {
    if segs == [] then true
    else
      var (front, last) := (segs[..|segs| - 1], segs[|segs| - 1]);
      && IsScan(front)
      && (front != [] ==> !IsLast(front[|front| - 1]))
      && last.done <= |last.page|
      && IsPage(last.rows, Cursor(front), last.page)
  }

  /** A row that is there at every query of the scan. */
  predicate Stays(segs: seq<Segment>, k: Key) { forall s | s in segs :: k in s.rows }

  ghost predicate Covers(segs: seq<Segment>) {
    var (keys, cursor) := (Attempted(segs), Cursor(segs));
    && Ascending(keys)
    && (forall k | Stays(segs, k) && !Behind(cursor, k) :: k in keys)
    && (segs != [] && IsLast(segs[|segs| - 1]) ==> forall k | Stays(segs, k) :: k in keys)
  }

  /** The part of a page that was tried, in relation to a row of that page's table. */
  lemma PageCovers(s: Segment, after: Option<Key>, k: Key)
    requires s.done <= |s.page| && IsPage(s.rows, after, s.page) && k in s.rows && Behind(after, k)
    ensures k in Tried(s) || IsAfterAll(Tried(s), k)
    ensures IsLast(s) ==> k in Tried(s)
  {
    if k in s.page {
      var i :| 0 <= i < |s.page| && s.page[i] == k;
      assert i < s.done ==> Tried(s)[i] == k;
    }
  }

  lemma TriedIsOnThePage(s: Segment, after: Option<Key>, k: Key)
    requires IsPage(s.rows, after, s.page) && k in Tried(s)
    ensures k in s.page && Behind(after, k) && Tried(s) != []
  {
    var i :| 0 <= i < |Tried(s)| && Tried(s)[i] == k;
    assert s.page[i] == k;
  }

  lemma AppendAscending(before: seq<Key>, tried: seq<Key>)
    requires Ascending(before) && Ascending(tried)
    requires before != [] ==> forall k | k in tried :: Less(before[|before| - 1], k)
    ensures Ascending(before + tried)
  {
    forall i, j | 0 <= i < |before| && 0 <= j < |tried| ensures Less(before[i], tried[j]) {
      assert tried[j] in tried;
      assert i == |before| - 1 || Less(before[i], before[|before| - 1]);
    }
  }

  lemma TriedAscends(s: Segment, after: Option<Key>)
    requires IsPage(s.rows, after, s.page)
    ensures Ascending(Tried(s)) && forall k | k in Tried(s) :: Behind(after, k)
  {
    forall k | k in Tried(s) ensures Behind(after, k) {
      TriedIsOnThePage(s, after, k);
    }
  }

  lemma SegmentAscends(segs: seq<Segment>)
    requires segs != [] && IsScan(segs) && Ascending(Attempted(segs[..|segs| - 1]))
    ensures Ascending(Attempted(segs))
  {
    hide Ascending, IsPage, Tried;
    var (front, last) := (segs[..|segs| - 1], segs[|segs| - 1]);
    TriedAscends(last, Cursor(front));
    AppendAscending(Attempted(front), Tried(last));
  }

  lemma InOneOfBoth(before: seq<Key>, tried: seq<Key>, k: Key)
    requires k in before || Behind(LastOf(before), k)
    requires k in tried || IsAfterAll(tried, k)
    requires !Behind(LastOf(before + tried), k)
    ensures k in before + tried
  {
  }

  lemma SegmentCovers(segs: seq<Segment>, k: Key)
    requires segs != [] && IsScan(segs) && Covers(segs[..|segs| - 1])
    requires Stays(segs, k) && (!Behind(Cursor(segs), k) || IsLast(segs[|segs| - 1]))
    ensures k in Attempted(segs)
  {
    hide IsPage, Ascending, Behind, LastOf, IsAfterAll, IsLast;
    var (front, last) := (segs[..|segs| - 1], segs[|segs| - 1]);
    assert last in segs && Stays(front, k);
    if Behind(Cursor(front), k) {
      PageCovers(last, Cursor(front), k);
      if !IsLast(last) {
        InOneOfBoth(Attempted(front), Tried(last), k);
      }
    }
  }

  lemma OneMoreSegment(segs: seq<Segment>)
    requires segs != [] && IsScan(segs) && Covers(segs[..|segs| - 1])
    ensures Covers(segs)
  {
    hide IsScan, Attempted, Cursor, Ascending;
    SegmentAscends(segs);
    forall k | Stays(segs, k) && (!Behind(Cursor(segs), k) || IsLast(segs[|segs| - 1])) ensures k in Attempted(segs) {
      SegmentCovers(segs, k);
    }
  }

  lemma {:induction false} ScanCovers(segs: seq<Segment>)
    requires IsScan(segs)
    ensures Covers(segs)
    decreases segs
  {
    if segs != [] {
      ScanCovers(segs[..|segs| - 1]);
      OneMoreSegment(segs);
    }
  }

  // ---------------------------------------------------------------- what a scan guarantees

  function Times(keys: seq<Key>, k: Key): nat { multiset(keys)[k] }

  lemma {:induction false} AscendingIsOnce(keys: seq<Key>, k: Key)
    requires Ascending(keys)
    ensures Times(keys, k) == if k in keys then 1 else 0
    decreases keys
  {
    if keys != [] {
      var (front, last) := (keys[..|keys| - 1], keys[|keys| - 1]);
      AscendingIsOnce(front, k);
      assert keys == front + [last];
      assert forall i | 0 <= i < |front| :: Less(front[i], last);
    }
  }

  /** From an empty cursor to its reset a scan tries every row that stays exactly once, no row twice, and all
  of them in key order, whatever else is added or removed, wherever pages are left, and however the
  attempts end. */
  lemma ScanTriesEachOnce(segs: seq<Segment>, k: Key)
    requires IsScan(segs)
    ensures Ascending(Attempted(segs)) && Times(Attempted(segs), k) <= 1
    ensures segs != [] && IsLast(segs[|segs| - 1]) && Stays(segs, k) ==> Times(Attempted(segs), k) == 1
  {
    ScanCovers(segs);
    AscendingIsOnce(Attempted(segs), k);
  }

  /** It tries only what it has seen. */
  lemma {:induction false} ScanTriesWhatIsThere(segs: seq<Segment>, k: Key)
    requires IsScan(segs) && k in Attempted(segs)
    ensures exists s :: s in segs && k in s.rows && k in s.page
    decreases segs
  {
    var (front, last) := (segs[..|segs| - 1], segs[|segs| - 1]);
    if k in Tried(last) {
      assert last in segs;
      var i :| 0 <= i < |Tried(last)| && Tried(last)[i] == k;
      assert last.page[i] == k;
    } else {
      ScanTriesWhatIsThere(front, k);
      var s :| s in front && k in s.rows && k in s.page;
      assert s in segs;
    }
  }

  lemma {:induction false} AscendingSize(keys: seq<Key>, rows: set<Key>)
    requires Ascending(keys) && forall k | k in keys :: k in rows
    ensures |keys| <= |rows|
    decreases keys
  {
    if keys != [] {
      var (front, last) := (keys[..|keys| - 1], keys[|keys| - 1]);
      assert forall i | 0 <= i < |front| :: Less(front[i], last) && front[i] in keys;
      assert last in keys;
      AscendingSize(front, rows - {last});
    }
  }

  lemma {:induction false} FullPages(segs: seq<Segment>)
    requires IsScan(segs) && forall s | s in segs :: s.done == |s.page|
    ensures segs != [] ==> |Attempted(segs)| >= PAGE * (|segs| - 1)
    ensures segs != [] && !IsLast(segs[|segs| - 1]) ==> |Attempted(segs)| == PAGE * |segs|
    decreases segs
  {
    if segs != [] {
      var (front, last) := (segs[..|segs| - 1], segs[|segs| - 1]);
      assert forall s | s in front :: s in segs;
      assert last in segs;
      FullPages(front);
    }
  }

  /** When whole pages are tried and no row is added meanwhile, a sweep over `n` rows needs at most
  `n / 64 + 1` pages. */
  lemma SweepIsBounded(segs: seq<Segment>)
    requires IsScan(segs) && segs != []
    requires forall s | s in segs :: s.done == |s.page| && s.rows <= segs[0].rows
    ensures |segs| <= |segs[0].rows| / PAGE + 1
  {
    ScanCovers(segs);
    FullPages(segs);
    forall k | k in Attempted(segs) ensures k in segs[0].rows {
      ScanTriesWhatIsThere(segs, k);
    }
    AscendingSize(Attempted(segs), segs[0].rows);
  }

  // ---------------------------------------------------------------- the scan as a loop

  /** Whole pages of the tables, one after the other. */
  predicate Follows(segs: seq<Segment>, tables: seq<set<Key>>) {
    |segs| <= |tables| && forall i | 0 <= i < |segs| :: segs[i].rows == tables[i] && segs[i].done == |segs[i].page|
  }

  lemma FollowsOneMore(front: seq<Segment>, tables: seq<set<Key>>, s: Segment)
    requires Follows(front, tables) && |front| < |tables| && s.rows == tables[|front|] && s.done == |s.page|
    ensures Follows(front + [s], tables)
  {
  }

  lemma AttemptedOneMore(front: seq<Segment>, s: Segment)
    ensures Attempted(front + [s]) == Attempted(front) + Tried(s)
  {
    var segs := front + [s];
    assert segs[..|segs| - 1] == front && segs[|segs| - 1] == s;
  }

  /** The scan has not come to its end. */
  predicate IsOpen(segs: seq<Segment>) { segs != [] ==> !IsLast(segs[|segs| - 1]) }

  lemma WholePage(front: seq<Segment>, s: Segment)
    requires IsScan(front) && IsOpen(front)
    requires s.done == |s.page| && IsPage(s.rows, Cursor(front), s.page)
    ensures IsScan(front + [s]) && Attempted(front + [s]) == Attempted(front) + s.page
    ensures if |s.page| == PAGE then IsOpen(front + [s]) && Cursor(front + [s]) == Some(s.page[PAGE - 1])
            else IsEnded(front + [s])
  {
    AttemptedOneMore(front, s);
    assert |s.page| <= PAGE;
    hide IsPage, Attempted;
    var segs := front + [s];
    assert segs[..|segs| - 1] == front && segs[|segs| - 1] == s;
    assert Tried(s) == s.page;
  }

  predicate IsEnded(segs: seq<Segment>) { segs != [] && IsLast(segs[|segs| - 1]) }

  /** A scan of leases together with the segments it has gone through. */
  class RecordedScan {
    const scan: RecoveryScan
    ghost var segs: seq<Segment>

    ghost predicate Valid(tables: seq<set<Key>>)
      reads this, scan
    {
      IsScan(segs) && IsOpen(segs) && Follows(segs, tables) && scan.cursor == Cursor(segs)
    }

    constructor (tables: seq<set<Key>>)
      ensures Valid(tables) && segs == [] && Attempted(segs) == [] && fresh(scan)
    {
      scan := new RecoveryScan();
      segs := [];
    }

    /** One call of `recover_page`: it either goes on, ends the scan, or meets an error. */
    method Next(tables: seq<set<Key>>, i: nat, outcome: map<Key, Outcome>)
      returns (page: seq<Key>, progress: Option<Progress>)
      requires Valid(tables) && |segs| == i < |tables| && tables[i] <= outcome.Keys
      modifies this, scan
      ensures progress.Some? ==>
                && IsScan(segs) && Follows(segs, tables) && |segs| == |old(segs)| + 1
                && Attempted(segs) == old(Attempted(segs)) + page
                && if progress.value.more then Valid(tables) else IsEnded(segs)
      ensures progress.None? ==> segs == old(segs) && exists k :: k in outcome && outcome[k].Broken?
    {
      hide IsPage, IsScan, Attempted, Tried, Follows, IsOpen, IsEnded, Cursor;
      page, progress := scan.RecoverPage(tables[i], outcome);
      if progress.Some? {
        ghost var s := Segment(tables[i], page, |page|);
        FollowsOneMore(segs, tables, s);
        WholePage(segs, s);
        segs := segs + [s];
      }
    }
  }

  /** `recover_page` called until the cursor is empty again, or until a page meets an error. `tables[i]` is the
  table at the `i`-th query. The keys of its whole pages are those of a scan, so everything proved about scans
  holds for it. */
  method Sweep(tables: seq<set<Key>>, outcome: map<Key, Outcome>)
    returns (tried: seq<Key>, pages: nat, ended: bool, ghost segs: seq<Segment>)
    requires forall i | 0 <= i < |tables| :: tables[i] <= outcome.Keys
    ensures IsScan(segs) && Follows(segs, tables) && |segs| == pages && tried == Attempted(segs)
    ensures Ascending(tried) && (ended ==> IsEnded(segs))
    ensures ended ==> forall k | forall i | 0 <= i < pages :: k in tables[i] :: Times(tried, k) == 1
    ensures pages > 0 && (forall i | 0 <= i < pages :: tables[i] <= tables[0]) ==> pages <= |tables[0]| / PAGE + 1
    ensures !ended ==> pages == |tables| || exists k :: k in outcome && outcome[k].Broken?
  {
    hide IsScan, Follows, IsEnded, IsOpen, Cursor, Ascending, Times, Attempted;
    var run := new RecordedScan(tables);
    tried, pages, ended := [], 0, false;
    while pages < |tables| && !ended
      invariant fresh(run) && fresh(run.scan) && pages <= |tables|
      invariant |run.segs| == pages && tried == Attempted(run.segs) && IsScan(run.segs) && Follows(run.segs, tables)
      invariant if ended then IsEnded(run.segs) else run.Valid(tables)
      decreases |tables| - pages
    {
      var page, progress := run.Next(tables, pages, outcome);
      if progress.None? {
        break;
      }
      tried, pages, ended := tried + page, pages + 1, !progress.value.more;
    }
    segs := run.segs;
    SweptRows(segs, tables);
  }

  /** The theorems about scans, in terms of the tables. */
  lemma SweptRows(segs: seq<Segment>, tables: seq<set<Key>>)
    requires IsScan(segs) && Follows(segs, tables)
    ensures Ascending(Attempted(segs))
    ensures IsEnded(segs) ==> forall k | forall i | 0 <= i < |segs| :: k in tables[i] :: Times(Attempted(segs), k) == 1
    ensures segs != [] && (forall i | 0 <= i < |segs| :: tables[i] <= tables[0]) ==> |segs| <= |tables[0]| / PAGE + 1
  {
    hide IsScan, Attempted, Times, Ascending;
    ScanCovers(segs);
    forall k | IsEnded(segs) && forall i | 0 <= i < |segs| :: k in tables[i] ensures Times(Attempted(segs), k) == 1 {
      ScanTriesEachOnce(segs, k);
    }
    if segs != [] && forall i | 0 <= i < |segs| :: tables[i] <= tables[0] {
      SweepIsBounded(segs);
    }
  }
}
