/** Transactions that block each other on row locks.

The worker and the API agree on one global order for row locks. A transaction that only ever waits
for a lock ranked above everything it already holds cannot take part in a cycle of waits. */
module LockOrder {

  /** The position of one row lock in the global order: the table first, then the row inside it. */
  datatype Rank = Rank(table: nat, row: int)

  predicate Below(a: Rank, b: Rank) {
    a.table < b.table || (a.table == b.table && a.row < b.row)
  }

  /** What every open transaction holds, and what each stopped one is waiting for. */
  datatype Waits<T> = Waits(held: map<T, set<Rank>>, wanted: map<T, Rank>)

  ghost predicate Blocks<T(!new)>(w: Waits<T>, t: T, u: T) {
    && t in w.wanted
    && u in w.held
    && w.wanted[t] in w.held[u]
  }

  /** Every wait reaches upwards from the locks its transaction holds. */
  ghost predicate Ascending<T(!new)>(w: Waits<T>) {
    && w.wanted.Keys <= w.held.Keys
    && forall t, r | t in w.wanted && r in w.held[t] :: Below(r, w.wanted[t])
  }

  /** Each transaction of the list waits for the next one, and the last for the first. */
  ghost predicate IsCycle<T(!new)>(w: Waits<T>, ts: seq<T>) {
    && ts != []
    && (forall i | 0 <= i < |ts| - 1 :: Blocks(w, ts[i], ts[i + 1]))
    && Blocks(w, ts[|ts| - 1], ts[0])
  }

  /** Along a chain of waits the wanted rank only rises. */
  lemma {:induction false} ChainRises<T(!new)>(w: Waits<T>, ts: seq<T>, n: nat)
    requires Ascending(w)
    requires n < |ts| && forall i | 0 <= i < |ts| - 1 :: Blocks(w, ts[i], ts[i + 1])
    requires ts[n] in w.wanted
    ensures ts[0] in w.wanted
    ensures n == 0 || Below(w.wanted[ts[0]], w.wanted[ts[n]])
    decreases n
  {
    if n > 0 {
      assert Blocks(w, ts[n - 1], ts[n]);
      ChainRises(w, ts, n - 1);
    }
  }

  lemma {:induction false} NoCycle<T(!new)>(w: Waits<T>, ts: seq<T>)
    requires Ascending(w)
    ensures !IsCycle(w, ts)
  {
    if IsCycle(w, ts) {
      ChainRises(w, ts, |ts| - 1);
    }
  }

  /** A wait whose rank no other wait exceeds. */
  lemma {:induction false} HighestWait<T(!new)>(w: Waits<T>, among: set<T>) returns (top: T)
    requires among != {} && among <= w.wanted.Keys
    ensures top in among
    ensures forall t | t in among :: !Below(w.wanted[top], w.wanted[t])
    decreases among
  {
    var t :| t in among;
    var rest := among - {t};
    if rest == {} {
      assert among == {t};
      top := t;
    } else {
      var best := HighestWait(w, rest);
      top := if Below(w.wanted[best], w.wanted[t]) then t else best;
      assert forall u | u in among :: u == t || u in rest;
    }
  }

  /** As long as a transaction is open, one of the open transactions is not blocked. */
  lemma {:induction false} SomeoneProceeds<T(!new)>(w: Waits<T>) returns (t: T)
    requires Ascending(w)
    requires w.held != map[]
    ensures t in w.held && forall u | u in w.held :: !Blocks(w, t, u)
  {
    if w.wanted == map[] {
      t :| t in w.held;
    } else {
      var key :| key in w.wanted;
      assert w.wanted.Keys != {};
      t := HighestWait(w, w.wanted.Keys);
      if u :| u in w.held && Blocks(w, t, u) {
        assert u !in w.wanted;
        t := u;
      }
    }
  }
}
