/** db.rs: the worker that batches events in memory and flushes them in one transaction. */
module Database {
  import opened Bytes
  import opened Tables

  const RETENTION := 86400
  const FLUSH_INTERVAL := 60
  const FLUSH_AT := 1000

  /** The worker's variables and the database, with what has happened so far: the events
      committed (`past`) and received but not committed (`pending`), the minute rows `full`
      as they would be without pruning, the minute `last` of the last commit, and whether
      commits so far came in `steady` order of time. */
  datatype Worker = Worker(
    tables: Tables, shares: seq<Share>, miners: seq<Miner>, windows: map<string, real>,
    past: seq<DbEvent>, pending: seq<DbEvent>, full: seq<MinuteRow>, last: int, steady: bool)

  const START := Worker(EMPTY, [], [], map[], [], [], [], 0, true)

  // ── Steps ─────────────────────────────────────────────────────────────────

  /** `push_event` */
  function Push(w: Worker, e: DbEvent): Worker {
    var w' := w.(pending := w.pending + [e]);
    match e
    case ShareEvent(s) =>
      var sum := if s.address in w.windows then w.windows[s.address] else 0.0;
      w'.(windows := w.windows[s.address := sum + s.difficulty],
          shares := w.shares + [s])
    case MinerConnected(m) => w'.(miners := w.miners + [m])
  }

  function FloorMinute(now: nat): (minute: nat)
    ensures minute % 60 == 0 && minute <= now < minute + 60
  {
    now / 60 * 60
  }

  /** An iteration order of the window map. */
  predicate IsOrder(order: seq<string>, windows: map<string, real>) {
    Distinct(order) && (forall a :: a in order ==> a in windows) && (forall a :: a in windows ==> a in order)
  }

  function AddAll(rows: seq<MinuteRow>, windows: map<string, real>, order: seq<string>, minute: int): seq<MinuteRow>
    requires forall a :: a in order ==> a in windows
  {
    if order == [] then rows
    else
      var n := |order| - 1;
      AddMinute(AddAll(rows, windows, order[..n], minute), order[n], minute, windows[order[n]])
  }

  /** The tables after the statements of `flush_inner` have all succeeded. */
  function FlushedTables(w: Worker, order: seq<string>, minute: int): Tables
    requires IsOrder(order, w.windows)
  {
    var t := ApplyWindows(ApplyShares(ApplyMiners(w.tables, w.miners), w.shares), w.windows, order, minute);
    t.(minutes := Prune(t.minutes, minute - RETENTION))
  }

  /** BEGIN, the inserts and upserts, the DELETE and COMMIT. */
  function Statements(w: Worker, order: seq<string>): nat {
    1 + |w.miners| + 2 * |w.shares| + 2 * |order| + 2
  }

  /** `flush`, when the first `budget` statements succeed and the next one fails. */
  function Flush(w: Worker, now: nat, order: seq<string>, budget: nat): Worker
    requires IsOrder(order, w.windows)
  {
    if w.shares == [] && w.miners == [] && w.windows == map[] then w
    else if budget < Statements(w, order) then w
    else
      var minute := FloorMinute(now);
      Worker(FlushedTables(w, order, minute), [], [], map[],
             w.past + w.pending, [], AddAll(w.full, w.windows, order, minute), minute, w.steady && minute >= w.last)
  }

  // ── The invariant ─────────────────────────────────────────────────────────

  /** The window of an address sums its pending shares; the others have none. */
  ghost predicate WindowsHold(windows: map<string, real>, pending: seq<Share>) {
    forall a: string :: (a in windows <==> Count(pending, a) > 0) && (a in windows ==> windows[a] == Total(pending, a))
  }

  /** Nothing of `full` is lost or counted twice, and the minutes kept of an address are
      no more than its flushes, which are no more than its shares. */
  ghost predicate MinutesHold(t: Tables, full: seq<MinuteRow>, ss: seq<Share>) {
    && UniqueKeys(t.minutes)
    && forall a: string ::
         SumRows(full, Some(a), None) == Total(ss, a) && CountRows(t.minutes, a) <= Active(t, a) <= Count(ss, a)
  }

  ghost predicate Stored(t: Tables, full: seq<MinuteRow>, past: seq<DbEvent>) {
    && MinersHold(t, MinersOf(past))
    && SharesHold(t, SharesOf(past))
    && MinutesHold(t, full, SharesOf(past))
  }

  ghost predicate Valid(w: Worker) {
    && w.shares == SharesOf(w.pending)
    && w.miners == MinersOf(w.pending)
    && WindowsHold(w.windows, w.shares)
    && Stored(w.tables, w.full, w.past)
    && (w.steady ==> w.tables.minutes == Prune(w.full, w.last - RETENTION))
  }

  lemma {:induction false} StartValid()
    ensures Valid(START)
  {
  }

  lemma {:induction false} KindsOfOneMore(es: seq<DbEvent>, e: DbEvent)
    ensures SharesOf(es + [e]) == SharesOf(es) + (if e.ShareEvent? then [e.share] else [])
    ensures MinersOf(es + [e]) == MinersOf(es) + (if e.MinerConnected? then [e.miner] else [])
  {
    assert (es + [e])[..|es|] == es;
  }

  lemma {:induction false} WindowOfOneMore(windows: map<string, real>, ss: seq<Share>, s: Share)
    requires WindowsHold(windows, ss)
    ensures WindowsHold(windows[s.address := (if s.address in windows then windows[s.address] else 0.0) + s.difficulty],
                        ss + [s])
  {
    assert (ss + [s])[..|ss|] == ss;
    NoShareNoHash(ss, s.address);
  }

  lemma {:induction false} PushKeepsValid(w: Worker, e: DbEvent)
    requires Valid(w)
    ensures Valid(Push(w, e))
  {
    KindsOfOneMore(w.pending, e);
    if e.ShareEvent? {
      WindowOfOneMore(w.windows, w.shares, e.share);
    }
  }

  // ── Flushing the windows ──────────────────────────────────────────────────

  lemma {:induction false} WindowsApplied(t: Tables, windows: map<string, real>, order: seq<string>, minute: int,
      ss: seq<Share>)
    requires Distinct(order) && forall a :: a in order ==> a in windows && Count(ss, a) > 0
    requires SharesHold(t, ss)
    ensures SharesHold(ApplyWindows(t, windows, order, minute), ss)
    ensures ApplyWindows(t, windows, order, minute).miners == t.miners
    ensures ApplyWindows(t, windows, order, minute).minutes == AddAll(t.minutes, windows, order, minute)
    ensures forall a ::
              Active(ApplyWindows(t, windows, order, minute), a) == Active(t, a) + (if a in order then 1 else 0)
    decreases |order|
  {
    if order != [] {
      var n := |order| - 1;
      var b := order[n];
      assert order == order[..n] + [b];
      assert b !in order[..n];
      WindowsApplied(t, windows, order[..n], minute, ss);
      var u := ApplyWindows(t, windows, order[..n], minute);
      var v := ApplyWindow(u, b, minute, windows[b]);
      assert RowHolds(u, ss, b);
      forall a: string ensures RowHolds(v, ss, a) {
        assert RowHolds(u, ss, a);
      }
    }
  }

  lemma {:induction false} AddAllSums(rows: seq<MinuteRow>, windows: map<string, real>, order: seq<string>,
      minute: int, a: string)
    requires Distinct(order) && forall b :: b in order ==> b in windows
    ensures SumRows(AddAll(rows, windows, order, minute), Some(a), None)
            == SumRows(rows, Some(a), None) + (if a in order then windows[a] else 0.0)
    ensures CountRows(AddAll(rows, windows, order, minute), a) <= CountRows(rows, a) + (if a in order then 1 else 0)
    ensures UniqueKeys(rows) ==> UniqueKeys(AddAll(rows, windows, order, minute))
    decreases |order|
  {
    if order != [] {
      var n := |order| - 1;
      assert order == order[..n] + [order[n]];
      assert order[n] !in order[..n];
      AddAllSums(rows, windows, order[..n], minute, a);
      var some := AddAll(rows, windows, order[..n], minute);
      AddMinuteSums(some, order[n], minute, windows[order[n]], a);
      if UniqueKeys(rows) {
        AddMinuteKeys(some, order[n], minute, windows[order[n]]);
      }
    }
  }

  lemma {:induction false} PruneOfAddAll(rows: seq<MinuteRow>, windows: map<string, real>, order: seq<string>,
      minute: int, cutoff: int)
    requires minute >= cutoff && forall b :: b in order ==> b in windows
    ensures Prune(AddAll(rows, windows, order, minute), cutoff) == AddAll(Prune(rows, cutoff), windows, order, minute)
    decreases |order|
  {
    if order != [] {
      var n := |order| - 1;
      PruneOfAddAll(rows, windows, order[..n], minute, cutoff);
      PruneOfAdd(AddAll(rows, windows, order[..n], minute), order[n], minute, windows[order[n]], cutoff);
    }
  }

  /** Pruning after every flush removes what one prune of the whole history removes. */
  lemma {:induction false} PruneAgain(w: Worker, order: seq<string>, minute: int)
    requires IsOrder(order, w.windows)
    requires w.tables.minutes == Prune(w.full, w.last - RETENTION) && minute >= w.last
    ensures Prune(AddAll(w.tables.minutes, w.windows, order, minute), minute - RETENTION)
            == Prune(AddAll(w.full, w.windows, order, minute), minute - RETENTION)
  {
    var c, d := w.last - RETENTION, minute - RETENTION;
    PruneOfAddAll(w.full, w.windows, order, minute, c);
    PruneTwice(AddAll(w.full, w.windows, order, minute), c, d);
  }

  lemma {:induction false} MinutesAfterFlush(t: Tables, full: seq<MinuteRow>, past: seq<Share>, batch: seq<Share>,
                          t': Tables, windows: map<string, real>, order: seq<string>, minute: int)
    requires IsOrder(order, windows) && WindowsHold(windows, batch)
    requires MinutesHold(t, full, past)
    requires t'.minutes == Prune(AddAll(t.minutes, windows, order, minute), minute - RETENTION)
    requires forall a :: Active(t', a) == Active(t, a) + (if a in order then 1 else 0)
    ensures MinutesHold(t', AddAll(full, windows, order, minute), past + batch)
  {
    var rows := AddAll(t.minutes, windows, order, minute);
    PruneKeeps(rows, minute - RETENTION);
    AddAllSums(t.minutes, windows, order, minute, "");
    forall a: string
      ensures SumRows(AddAll(full, windows, order, minute), Some(a), None) == Total(past + batch, a)
      ensures CountRows(t'.minutes, a) <= Active(t', a) <= Count(past + batch, a)
    {
      CountTotalConcat(past, batch, a);
      AddAllSums(full, windows, order, minute, a);
      AddAllSums(t.minutes, windows, order, minute, a);
      NoShareNoHash(batch, a);
    }
  }

  lemma {:induction false} FlushedTablesHold(w: Worker, order: seq<string>, minute: int)
    requires Valid(w) && IsOrder(order, w.windows)
    ensures Stored(FlushedTables(w, order, minute), AddAll(w.full, w.windows, order, minute), w.past + w.pending)
    ensures FlushedTables(w, order, minute).minutes
            == Prune(AddAll(w.tables.minutes, w.windows, order, minute), minute - RETENTION)
  {
    var before := SharesOf(w.past);
    var ss := before + w.shares;
    KindsConcat(w.past, w.pending);
    var t1 := ApplyMiners(w.tables, w.miners);
    ApplyMinersHold(w.tables, MinersOf(w.past), w.miners);
    SameRows(w.tables, t1, before);
    var t2 := ApplyShares(t1, w.shares);
    ApplySharesHold(t1, before, w.shares);
    forall a | a in order ensures Count(ss, a) > 0 {
      CountTotalConcat(before, w.shares, a);
    }
    WindowsApplied(t2, w.windows, order, minute, ss);
    var t := FlushedTables(w, order, minute);
    SameRows(ApplyWindows(t2, w.windows, order, minute), t, ss);
    MinutesAfterFlush(w.tables, w.full, before, w.shares, t, w.windows, order, minute);
  }

  lemma {:induction false} SameRows(t: Tables, t': Tables, ss: seq<Share>)
    requires SharesHold(t, ss) && t'.epoch == t.epoch && t'.shares == t.shares
    ensures SharesHold(t', ss)
    ensures forall a :: Active(t', a) == Active(t, a)
  {
    forall a: string ensures RowHolds(t', ss, a) {
      assert RowHolds(t, ss, a);
    }
  }

  lemma {:induction false} FlushKeepsValid(w: Worker, now: nat, order: seq<string>, budget: nat)
    requires Valid(w) && IsOrder(order, w.windows)
    ensures Valid(Flush(w, now, order, budget))
  {
    var w' := Flush(w, now, order, budget);
    if w' != w {
      FlushedTablesHold(w, order, FloorMinute(now));
      if w'.steady {
        PruneAgain(w, order, FloorMinute(now));
      }
    }
  }

  // ── When a flush succeeds ─────────────────────────────────────────────────

  /** How many statements a flush needs. */
  function Needed(w: Worker): nat {
    3 + |w.miners| + 2 * |w.shares| + 2 * |w.windows|
  }

  function AddressesOf(order: seq<string>): set<string> { set a | a in order }

  lemma {:induction false} DistinctAddresses(order: seq<string>)
    requires Distinct(order)
    ensures |AddressesOf(order)| == |order|
  {
    if order != [] {
      var init, a := order[..|order| - 1], order[|order| - 1];
      assert order == init + [a];
      DistinctAddresses(init);
      assert a !in init && AddressesOf(order) == AddressesOf(init) + {a};
    }
  }

  /** Whatever the order, each window is walked once. */
  lemma {:induction false} WalkLength(w: Worker, order: seq<string>)
    requires IsOrder(order, w.windows)
    ensures Statements(w, order) == Needed(w)
  {
    DistinctAddresses(order);
    assert AddressesOf(order) == w.windows.Keys;
  }

  lemma {:induction false} KindsCount(es: seq<DbEvent>)
    ensures |MinersOf(es)| + |SharesOf(es)| == |es|
  {
    if es != [] {
      KindsCount(es[..|es| - 1]);
    }
  }

  /** A flush fails if something is pending and fewer statements succeed than it needs. */
  predicate Fails(w: Worker, budget: nat) {
    w.pending != [] && budget < Needed(w)
  }

  /** Else it leaves nothing pending; and it does one of the two. */
  lemma {:induction false} FlushOutcome(w: Worker, now: nat, order: seq<string>, budget: nat)
    requires Valid(w) && IsOrder(order, w.windows)
    ensures var w' := Flush(w, now, order, budget);
            if Fails(w, budget) then w' == w
            else
              && w'.pending == [] && w'.shares == [] && w'.miners == [] && w'.windows == map[]
              && w'.past == w.past + w.pending
  {
    WalkLength(w, order);
    KindsCount(w.pending);
    if w.pending == [] {
      assert forall a: string :: a !in w.windows;
      assert w.windows == map[] && w.past + w.pending == w.past;
    }
  }

  lemma {:induction false} NoShareNoAddress(ss: seq<Share>, a: string)
    requires Count(ss, a) > 0
    ensures exists s :: s in ss && s.address == a
  {
    var n := |ss| - 1;
    if ss[n].address == a {
      assert ss[n] in ss;
    } else {
      NoShareNoAddress(ss[..n], a);
      var s :| s in ss[..n] && s.address == a;
      assert s in ss;
    }
  }

  lemma {:induction false} FewAddresses(ss: seq<Share>, order: seq<string>)
    requires Distinct(order) && forall a :: a in order ==> exists s :: s in ss && s.address == a
    ensures |order| <= |ss|
    decreases |ss|
  {
    if order != [] {
      assert order[0] in order;
    }
    if ss != [] {
      var b, rest := ss[0].address, ss[1..];
      if i :| 0 <= i < |order| && order[i] == b {
        var others := order[..i] + order[i + 1..];
        forall a | a in others ensures exists s :: s in rest && s.address == a {
          assert a in order && a != b;
          var s :| s in ss && s.address == a;
          assert s in rest;
        }
        FewAddresses(rest, others);
      } else {
        forall a | a in order ensures exists s :: s in rest && s.address == a {
          var s :| s in ss && s.address == a;
          assert s in rest;
        }
        FewAddresses(rest, order);
      }
    }
  }
}
