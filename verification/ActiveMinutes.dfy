/** What `active_minutes` counts: successful flushes, not minutes. */
module ActiveMinutes {
  import opened Bytes
  import opened Tables
  import opened Database
  import opened DatabaseRuns

  // ── Minutes of an address ─────────────────────────────────────────────────

  function MinutesOf(rows: seq<MinuteRow>, a: string): set<int> {
    if rows == [] then {}
    else MinutesOf(rows[1..], a) + (if rows[0].address == a then {rows[0].minute} else {})
  }

  lemma {:induction false} MinuteHasRow(rows: seq<MinuteRow>, a: string, minute: int)
    ensures minute in MinutesOf(rows, a)
            <==> exists i :: 0 <= i < |rows| && rows[i].address == a && rows[i].minute == minute
  {
    if rows != [] {
      MinuteHasRow(rows[1..], a, minute);
      if minute in MinutesOf(rows[1..], a) {
        var i :| 0 <= i < |rows[1..]| && rows[1..][i].address == a && rows[1..][i].minute == minute;
        assert rows[i + 1].address == a && rows[i + 1].minute == minute;
      }
      if i :| 0 <= i < |rows| && rows[i].address == a && rows[i].minute == minute {
        if i > 0 {
          assert rows[1..][i - 1] == rows[i];
        }
      }
    }
  }

  /** One row per minute. */
  lemma {:induction false} CountIsMinutes(rows: seq<MinuteRow>, a: string)
    requires UniqueKeys(rows)
    ensures CountRows(rows, a) == |MinutesOf(rows, a)|
  {
    if rows != [] {
      CountIsMinutes(rows[1..], a);
      MinuteHasRow(rows[1..], a, rows[0].minute);
    }
  }

  lemma {:induction false} AddMinuteMinutes(rows: seq<MinuteRow>, b: string, minute: int, d: real, a: string)
    ensures MinutesOf(AddMinute(rows, b, minute, d), a) == MinutesOf(rows, a) + (if a == b then {minute} else {})
  {
    if rows == [] {
      assert [MinuteRow(b, minute, d)][1..] == [];
    } else {
      var head, tail := rows[0], rows[1..];
      if head.address == b && head.minute == minute {
        assert ([head.(sum := head.sum + d)] + tail)[1..] == tail;
      } else {
        AddMinuteMinutes(tail, b, minute, d, a);
        assert ([head] + AddMinute(tail, b, minute, d))[1..] == AddMinute(tail, b, minute, d);
      }
    }
  }

  lemma {:induction false} AddAllMinutes(rows: seq<MinuteRow>, windows: map<string, real>, order: seq<string>,
      minute: int, a: string)
    requires forall b :: b in order ==> b in windows
    ensures MinutesOf(AddAll(rows, windows, order, minute), a)
            == MinutesOf(rows, a) + (if a in order then {minute} else {})
    decreases |order|
  {
    if order != [] {
      var n := |order| - 1;
      assert order == order[..n] + [order[n]];
      AddAllMinutes(rows, windows, order[..n], minute, a);
      AddMinuteMinutes(AddAll(rows, windows, order[..n], minute), order[n], minute, windows[order[n]], a);
    }
  }

  // ── The flushes that count ────────────────────────────────────────────────

  /** A flush that succeeds and holds shares of `a`. */
  predicate Counts(w: Worker, op: Op, a: string)
    requires Enabled(w, op)
  {
    op.TryFlush? && a in w.windows && op.budget >= Statements(w, op.order)
  }

  /** The minutes in which such flushes happen, in order. */
  function FlushMinutes(w: Worker, ops: seq<Op>, a: string): seq<int>
    requires Allowed(w, ops)
    decreases ops
  {
    if ops == [] then []
    else (if Counts(w, ops[0], a) then [FloorMinute(ops[0].now)] else []) + FlushMinutes(Step(w, ops[0]), ops[1..], a)
  }

  lemma {:induction false} OneOp(w: Worker, w': Worker, op: Op, a: string)
    requires Valid(w) && UniqueKeys(w.full) && Enabled(w, op) && w' == Step(w, op)
    ensures UniqueKeys(w'.full)
    ensures Active(w'.tables, a) == Active(w.tables, a) + (if Counts(w, op, a) then 1 else 0)
    ensures MinutesOf(w'.full, a) == MinutesOf(w.full, a) + (if Counts(w, op, a) then {FloorMinute(op.now)} else {})
  {
    if op.TryFlush? && !(w.shares == [] && w.miners == [] && w.windows == map[])
      && op.budget >= Statements(w, op.order) {
      OneFlushed(w, w', op, a);
    }
  }

  lemma {:induction false} OneFlushed(w: Worker, w': Worker, op: Op, a: string)
    requires Valid(w) && UniqueKeys(w.full) && Enabled(w, op) && op.TryFlush? && w' == Step(w, op)
    requires !(w.shares == [] && w.miners == [] && w.windows == map[]) && op.budget >= Statements(w, op.order)
    ensures UniqueKeys(w'.full)
    ensures Active(w'.tables, a) == Active(w.tables, a) + (if a in w.windows then 1 else 0)
    ensures MinutesOf(w'.full, a) == MinutesOf(w.full, a) + (if a in w.windows then {FloorMinute(op.now)} else {})
  {
    var minute := FloorMinute(op.now);
    AddAllSums(w.full, w.windows, op.order, minute, a);
    AddAllMinutes(w.full, w.windows, op.order, minute, a);
    FlushedActive(w, op.order, minute, a);
    assert a in op.order <==> a in w.windows;
  }

  lemma {:induction false} FlushedActive(w: Worker, order: seq<string>, minute: int, a: string)
    requires Valid(w) && IsOrder(order, w.windows)
    ensures Active(FlushedTables(w, order, minute), a) == Active(w.tables, a) + (if a in order then 1 else 0)
  {
    var before := SharesOf(w.past);
    KindsConcat(w.past, w.pending);
    var t1 := ApplyMiners(w.tables, w.miners);
    ApplyMinersHold(w.tables, MinersOf(w.past), w.miners);
    SameRows(w.tables, t1, before);
    var t2 := ApplyShares(t1, w.shares);
    ApplySharesHold(t1, before, w.shares);
    forall b | b in order ensures Count(before + w.shares, b) > 0 {
      CountTotalConcat(before, w.shares, b);
    }
    WindowsApplied(t2, w.windows, order, minute, before + w.shares);
  }

  lemma {:induction false} RunCounts(w: Worker, ops: seq<Op>, a: string)
    requires Valid(w) && UniqueKeys(w.full) && Allowed(w, ops)
    ensures UniqueKeys(Exec(w, ops).full)
    ensures Active(Exec(w, ops).tables, a) == Active(w.tables, a) + |FlushMinutes(w, ops, a)|
    ensures MinutesOf(Exec(w, ops).full, a) == MinutesOf(w.full, a) + Members(FlushMinutes(w, ops, a))
    decreases ops
  {
    if ops != [] {
      var w' := Step(w, ops[0]);
      OneOp(w, w', ops[0], a);
      StepKeeps(w, ops[0]);
      RunCounts(w', ops[1..], a);
    }
  }

  lemma {:induction false} FlushMinutesConcat(w: Worker, ops: seq<Op>, more: seq<Op>, a: string)
    requires Allowed(w, ops) && Allowed(Exec(w, ops), more) && Allowed(w, ops + more)
    ensures FlushMinutes(w, ops + more, a) == FlushMinutes(w, ops, a) + FlushMinutes(Exec(w, ops), more, a)
    decreases |ops|
  {
    if ops == [] {
      assert ops + more == more;
    } else {
      var all := ops + more;
      assert all[1..] == ops[1..] + more && all[0] == ops[0];
      FlushMinutesConcat(Step(w, ops[0]), ops[1..], more, a);
      var first := if Counts(w, ops[0], a) then [FloorMinute(ops[0].now)] else [];
      Associative(first, FlushMinutes(Step(w, ops[0]), ops[1..], a), FlushMinutes(Exec(w, ops), more, a));
    }
  }

  function Members(ms: seq<int>): set<int> { set m | m in ms }

  predicate AllDifferent(ms: seq<int>) {
    forall i, k :: 0 <= i < k < |ms| ==> ms[i] != ms[k]
  }

  lemma {:induction false} MembersCount(ms: seq<int>)
    ensures |Members(ms)| <= |ms|
    ensures |Members(ms)| == |ms| <==> AllDifferent(ms)
  {
    if ms != [] {
      var init, m := ms[..|ms| - 1], ms[|ms| - 1];
      MembersCount(init);
      assert Members(ms) == Members(init) + {m};
      assert ms == init + [m];
      OneMoreDifferent(init, m);
    }
  }

  lemma {:induction false} OneMoreDifferent(ms: seq<int>, m: int)
    ensures AllDifferent(ms + [m]) <==> AllDifferent(ms) && m !in ms
  {
    var all := ms + [m];
    if AllDifferent(all) {
      forall i, k | 0 <= i < k < |ms| ensures ms[i] != ms[k] {
        assert all[i] != all[k];
      }
      forall i | 0 <= i < |ms| ensures ms[i] != m {
        assert all[i] != all[|ms|];
      }
    }
  }

  /** In every run `active_minutes` is the number of successful flushes that held shares of
      the miner, the unpruned minute rows are the distinct minutes of those flushes, and so
      the two agree exactly when no two such flushes fall in one minute. */
  lemma {:induction false} ActiveMinutesExactly(ops: seq<Op>, a: string)
    requires Allowed(START, ops)
    ensures var w := Exec(START, ops);
            var flushes := FlushMinutes(START, ops, a);
            && Active(w.tables, a) == |flushes|
            && CountRows(w.full, a) == |Members(flushes)| <= Active(w.tables, a)
            && (CountRows(w.full, a) == Active(w.tables, a) <==> AllDifferent(flushes))
  {
    StartValid();
    RunCounts(START, ops, a);
    CountIsMinutes(Exec(START, ops).full, a);
    assert {} + Members(FlushMinutes(START, ops, a)) == Members(FlushMinutes(START, ops, a));
    MembersCount(FlushMinutes(START, ops, a));
  }
}
