/** Runs of the worker's loop in which a promise fails, and exactly when it holds. */
module WorkerTheorems {
  import opened Bytes
  import opened Tables
  import opened Database
  import opened DatabaseRuns
  import opened ActiveMinutes
  import opened DatabaseWorker

  // ── Two turns ─────────────────────────────────────────────────────────────

  lemma {:induction false} OneMoreOps(h: Head, turns: seq<Turn>, n: nat, orders: seq<seq<string>>, before: Head)
    requires n < |turns| == |orders| && Reaches(h, turns[..n], orders[..n], before)
    requires Walks(h, turns[..n + 1], orders[..n + 1])
    ensures RunOps(h, turns[..n + 1], orders[..n + 1])
            == RunOps(h, turns[..n], orders[..n]) + TurnOps(before.w, before.lastFlush, turns[n], orders[n])
  {
    assert turns[..n + 1][..n] == turns[..n] && orders[..n + 1][..n] == orders[..n];
  }

  lemma {:induction false} TwoTurns(h: Head, h1: Head, h2: Head, turns: seq<Turn>, orders: seq<seq<string>>)
    requires |turns| == 2 == |orders|
    requires Fits(h, turns[0], orders[0]) && h1 == NextHead(h, turns[0], orders[0])
    requires Fits(h1, turns[1], orders[1]) && h2 == NextHead(h1, turns[1], orders[1])
    ensures Reaches(h, turns[..1], orders[..1], h1) && Reaches(h, turns, orders, h2)
  {
    var none: seq<seq<string>> := [];
    assert turns[..0] == [] && orders[..0] == none && turns[..2] == turns && orders[..2] == orders;
    OneMoreTurn(h, turns, 0, none, orders[0], h, h1);
    assert none + [orders[0]] == orders[..1] && orders[..1] + [orders[1]] == orders;
    OneMoreTurn(h, turns, 1, orders[..1], orders[1], h1, h2);
  }

  lemma {:induction false} TwoTurnsOps(h: Head, h1: Head, h2: Head, turns: seq<Turn>, orders: seq<seq<string>>)
    requires |turns| == 2 == |orders|
    requires Reaches(h, turns[..1], orders[..1], h1) && Reaches(h, turns, orders, h2)
    ensures RunOps(h, turns, orders)
            == TurnOps(h.w, h.lastFlush, turns[0], orders[0]) + TurnOps(h1.w, h1.lastFlush, turns[1], orders[1])
  {
    assert turns[..0] == [] && orders[..0] == [] && turns[..2] == turns && orders[..2] == orders;
    OneMoreOps(h, turns, 0, orders, h);
    OneMoreOps(h, turns, 1, orders, h1);
    var ops := TurnOps(h.w, h.lastFlush, turns[0], orders[0]);
    assert RunOps(h, turns[..0], orders[..0]) == [] && [] + ops == ops;
  }

  predicate NothingBuffered(w: Worker) {
    w.windows == map[] && w.shares == [] && w.miners == []
  }

  // ── More active minutes than minutes ──────────────────────────────────────

  predicate AllShares(es: seq<DbEvent>, a: string) {
    forall e :: e in es ==> e.ShareEvent? && e.share.address == a
  }

  lemma {:induction false} BatchPushed(w: Worker, es: seq<DbEvent>, a: string)
    requires NothingBuffered(w) && AllShares(es, a)
    ensures var w' := PushAll(w, es);
            && w'.windows.Keys == (if es == [] then {} else {a}) && |w'.shares| == |es| && w'.miners == []
    decreases |es|
  {
    if es != [] {
      BatchPushed(w, es[..|es| - 1], a);
      assert es[|es| - 1] in es;
    }
  }

  lemma {:induction false} EnqueuesCountNothing(w: Worker, es: seq<DbEvent>, a: string)
    requires Allowed(w, Enqueues(es))
    ensures FlushMinutes(w, Enqueues(es), a) == []
  {
    assert forall op :: op in Enqueues(es) ==> op.Enqueue? by { OnlyEnqueues(es); }
    CountsNothing(w, Enqueues(es), a);
  }

  lemma {:induction false} OnlyEnqueues(es: seq<DbEvent>)
    ensures forall op :: op in Enqueues(es) ==> op.Enqueue?
    decreases |es|
  {
    if es != [] {
      OnlyEnqueues(es[..|es| - 1]);
    }
  }

  lemma {:induction false} CountsNothing(w: Worker, ops: seq<Op>, a: string)
    requires Allowed(w, ops) && forall op :: op in ops ==> op.Enqueue?
    ensures FlushMinutes(w, ops, a) == []
    decreases ops
  {
    if ops != [] {
      assert ops[0] in ops;
      CountsNothing(Step(w, ops[0]), ops[1..], a);
    }
  }

  /** A turn that receives a thousand shares of one miner and writes them. */
  predicate FullTurn(turn: Turn, a: string) {
    && !Ends(turn) && |EventsOf(turn)| >= FLUSH_AT && AllShares(EventsOf(turn), a)
    && turn.budget >= 5 + 2 * |EventsOf(turn)|
  }

  lemma {:induction false} FullTurnFlushes(h: Head, turn: Turn, a: string, order: seq<string>) returns (h': Head)
    requires Valid(h.w) && NothingBuffered(h.w) && FullTurn(turn, a) && order == [a]
    ensures Fits(h, turn, order) && h' == NextHead(h, turn, order)
    ensures Valid(h'.w) && NothingBuffered(h'.w) && Flushes(h.w, h.lastFlush, turn)
    ensures Allowed(h.w, TurnOps(h.w, h.lastFlush, turn, order))
    ensures Exec(h.w, TurnOps(h.w, h.lastFlush, turn, order)) == h'.w
    ensures FlushMinutes(h.w, TurnOps(h.w, h.lastFlush, turn, order), a) == [FloorMinute(turn.now)]
  {
    var es := EventsOf(turn);
    var w := PushAll(h.w, es);
    BatchPushed(h.w, es, a);
    EnqueuesRun(h.w, es);
    RunKeepsValid(h.w, Enqueues(es));
    assert a in w.windows.Keys && IsOrder(order, w.windows);
    h' := NextHead(h, turn, order);
    FlushOutcome(w, turn.now, order, turn.budget);
    FlushKeepsValid(w, turn.now, order, turn.budget);
    WalkLength(w, order);
    TurnRuns(h.w, h.lastFlush, turn, order);
    FlushCounted(h.w, es, turn.now, order, turn.budget, a);
  }

  lemma {:induction false} FlushCounted(w: Worker, es: seq<DbEvent>, now: nat, order: seq<string>, budget: nat,
      a: string)
    requires IsOrder(order, PushAll(w, es).windows) && a in order && budget >= Statements(PushAll(w, es), order)
    requires Allowed(w, Enqueues(es) + [TryFlush(now, order, budget)])
    ensures FlushMinutes(w, Enqueues(es) + [TryFlush(now, order, budget)], a) == [FloorMinute(now)]
  {
    var flush := [TryFlush(now, order, budget)];
    EnqueuesRun(w, es);
    EnqueuesCountNothing(w, es, a);
    var w' := PushAll(w, es);
    assert flush[1..] == [] && Allowed(w', flush);
    assert FlushMinutes(w', flush, a) == [FloorMinute(now)] + FlushMinutes(Step(w', flush[0]), flush[1..], a);
    FlushMinutesConcat(w, Enqueues(es), flush, a);
  }

  /** A thousand shares of one miner, received twice at the same moment in which the flush
      interval began: the loop flushes twice, for the share count alone, and the miner has
      two active minutes in one minute. */
  lemma {:induction false} TwiceInOneMinute(a: string, instant: nat, now: nat)
    returns (turns: seq<Turn>, orders: seq<seq<string>>)
    ensures |turns| == 2 && forall i :: 0 <= i < 2 ==>
              |EventsOf(turns[i])| == FLUSH_AT && turns[i].instant == instant && turns[i].now == now && !Ends(turns[i])
    ensures Walks(Head(START, instant), turns, orders)
    ensures var w := RunTurns(Head(START, instant), turns, orders).w;
            Active(w.tables, a) == 2 && CountRows(w.full, a) == 1
  {
    var e := ShareEvent(Share(a, 1.0, Zeros(32), 0));
    var turn := Turn(Arrived(e), seq(FLUSH_AT - 1, _ => e), false, instant, now, 5 + 2 * FLUSH_AT);
    turns, orders := [turn, turn], [[a], [a]];
    TwoFullTurns(Head(START, instant), turn, turns, orders, a);
  }

  lemma {:induction false} TwoFullTurns(h: Head, turn: Turn, turns: seq<Turn>, orders: seq<seq<string>>, a: string)
    requires h.w == START && FullTurn(turn, a)
    requires |turns| == 2 && turns[0] == turn == turns[1] && |orders| == 2 && orders[0] == [a] == orders[1]
    ensures Walks(h, turns, orders)
    ensures var w := RunTurns(h, turns, orders).w;
            Active(w.tables, a) == 2 && CountRows(w.full, a) == 1
  {
    StartValid();
    var order := orders[0];
    var h1 := FullTurnFlushes(h, turn, a, order);
    var h2 := FullTurnFlushes(h1, turn, a, order);
    TwoTurns(h, h1, h2, turns, orders);
    TwoTurnsOps(h, h1, h2, turns, orders);
    var ops0, ops1 := TurnOps(h.w, h.lastFlush, turn, order), TurnOps(h1.w, h1.lastFlush, turn, order);
    TurnsAreSteps(h, turns, orders);
    FlushMinutesConcat(h.w, ops0, ops1, a);
    TwoCounts(ops0 + ops1, a, FloorMinute(turn.now));
  }

  lemma {:induction false} TwoCounts(ops: seq<Op>, a: string, minute: int)
    requires Allowed(START, ops) && FlushMinutes(START, ops, a) == [minute] + [minute]
    ensures var w := Exec(START, ops);
            Active(w.tables, a) == 2 && CountRows(w.full, a) == 1
  {
    ActiveMinutesExactly(ops, a);
    assert Members(FlushMinutes(START, ops, a)) == {minute};
  }

  // ── Pruning ───────────────────────────────────────────────────────────────

  /** A hashrate query over this lookback sums the same as on the unpruned history. */
  predicate Unpruned(w: Worker, who: Option<string>, now: nat, lookback: nat) {
    SumRows(w.tables.minutes, who, Some(Cutoff(now, lookback))) == SumRows(w.full, who, Some(Cutoff(now, lookback)))
  }

  lemma {:induction false} OnePush(w: Worker, e: DbEvent) returns (w': Worker)
    requires Valid(w) && e.ShareEvent? && w.windows == map[] && w.shares == [] && w.miners == []
    ensures w' == Step(w, Enqueue(e)) && Valid(w') && w'.windows == map[e.share.address := e.share.difficulty]
    ensures w'.full == w.full && w'.tables == w.tables && |w'.shares| == 1 && w'.miners == []
  {
    PushKeepsValid(w, e);
    w' := Push(w, e);
    assert w'.windows == map[e.share.address := e.share.difficulty];
  }

  lemma {:induction false} OneWindow(rows: seq<MinuteRow>, a: string, d: real, minute: int)
    requires rows == [] || (|rows| == 1 && rows[0].minute != minute)
    ensures AddAll(rows, map[a := d], [a], minute) == rows + [MinuteRow(a, minute, d)]
  {
    assert [a][..0] == [];
    if rows != [] {
      assert AddMinute(rows[1..], a, minute, d) == [MinuteRow(a, minute, d)];
    }
  }

  lemma {:induction false} PruneToLast(rows: seq<MinuteRow>, r: MinuteRow, cutoff: int)
    requires rows == [] || (|rows| == 1 && rows[0].minute < cutoff)
    requires r.minute >= cutoff
    ensures Prune(rows + [r], cutoff) == [r]
  {
    assert Prune([r], cutoff) == [r] + Prune([r][1..], cutoff);
    if rows == [] {
      assert rows + [r] == [r];
    } else {
      assert (rows + [r])[1..] == [r];
    }
  }

  lemma {:induction false} OneFlush(w: Worker, a: string, d: real, now: nat) returns (w': Worker)
    requires Valid(w) && w.windows == map[a := d] && |w.shares| == 1 && w.miners == [] && now % 60 == 0
    requires w.full == w.tables.minutes
    requires w.full == [] || (|w.full| == 1 && w.full[0].minute < now - RETENTION)
    ensures Enabled(w, TryFlush(now, [a], 7)) && w' == Step(w, TryFlush(now, [a], 7)) && Valid(w')
    ensures w'.windows == map[] && w'.shares == [] && w'.miners == []
    ensures w'.full == w.full + [MinuteRow(a, now, d)] && w'.tables.minutes == [MinuteRow(a, now, d)]
  {
    assert FloorMinute(now) == now;
    FlushKeepsValid(w, now, [a], 7);
    w' := Flush(w, now, [a], 7);
    OneFlushRows(w, a, d, now, [a]);
  }

  lemma {:induction false} OneFlushRows(w: Worker, a: string, d: real, now: nat, order: seq<string>)
    requires Valid(w) && w.windows == map[a := d] && order == [a] && w.full == w.tables.minutes
    requires w.full == [] || (|w.full| == 1 && w.full[0].minute < now - RETENTION)
    ensures AddAll(w.full, w.windows, order, now) == w.full + [MinuteRow(a, now, d)]
    ensures FlushedTables(w, order, now).minutes == [MinuteRow(a, now, d)]
  {
    OneWindow(w.full, a, d, now);
    FlushedTablesHold(w, order, now);
    PruneToLast(w.full, MinuteRow(a, now, d), now - RETENTION);
  }

  lemma {:induction false} TwoMinutes(w: Worker, a: string, now: nat, d: real)
    requires w.full == [MinuteRow(a, 0, d)] + [MinuteRow(a, now, d)] && w.tables.minutes == [MinuteRow(a, now, d)]
    ensures SumRows(w.tables.minutes, None, Some(0)) == d && SumRows(w.full, None, Some(0)) == d + d
  {
    assert w.full[1..] == w.tables.minutes && w.tables.minutes[1..] == [];
    assert SumRows(w.tables.minutes, None, Some(0)) == d + SumRows([], None, Some(0));
  }

  /** One share of difficulty 1, flushed because the interval is over. */
  function ShareTurn(a: string, instant: nat, now: nat): Turn {
    Turn(Arrived(ShareEvent(Share(a, 1.0, Zeros(32), 0))), [], false, instant, now, 7)
  }

  lemma {:induction false} ShareTurnFlushes(h: Head, turn: Turn, a: string, instant: nat, now: nat, order: seq<string>)
      returns (h': Head)
    requires turn == ShareTurn(a, instant, now) && order == [a] && now % 60 == 0
    requires instant >= h.lastFlush + FLUSH_INTERVAL
    requires Valid(h.w) && NothingBuffered(h.w)
    requires h.w.full == h.w.tables.minutes
    requires h.w.full == [] || (|h.w.full| == 1 && h.w.full[0].minute < now - RETENTION)
    ensures Fits(h, turn, order) && h' == NextHead(h, turn, order) && h'.lastFlush == instant
    ensures Valid(h'.w) && NothingBuffered(h'.w)
    ensures h'.w.full == h.w.full + [MinuteRow(a, now, 1.0)] && h'.w.tables.minutes == [MinuteRow(a, now, 1.0)]
  {
    var e := turn.first.event;
    var w := OnePush(h.w, e);
    OnePushAll(h.w, e, EventsOf(turn));
    var w' := OneFlush(w, a, 1.0, now);
    h' := Head(w', instant);
    DueTurn(h, turn, order, w, w');
  }

  lemma {:induction false} DueTurn(h: Head, turn: Turn, order: seq<string>, w: Worker, w': Worker)
    requires w == PushAll(h.w, EventsOf(turn)) && !Ends(turn) && turn.instant >= h.lastFlush + FLUSH_INTERVAL
    requires IsOrder(order, w.windows) && w' == Flush(w, turn.now, order, turn.budget)
    ensures Fits(h, turn, order) && NextHead(h, turn, order) == Head(w', turn.instant)
  {
  }

  lemma {:induction false} OnePushAll(w: Worker, e: DbEvent, es: seq<DbEvent>)
    requires es == [e] + []
    ensures PushAll(w, es) == Push(w, e)
  {
    assert es[..0] == [] && es[0] == e;
  }

  /** A run, with clocks that agree and go forward, after which a longer query misses a
      pruned minute. */
  lemma {:induction false} LongerLookbackSeesPruning(lookback: nat, a: string)
    returns (turns: seq<Turn>, orders: seq<seq<string>>, now: nat)
    requires lookback > 1440
    ensures Walks(Head(START, 0), turns, orders) && TurnsForward(turns, now)
    ensures |turns| == 2 && turns[0].instant == turns[0].now + 60 && turns[1].instant == turns[1].now + 60
    ensures !Unpruned(RunTurns(Head(START, 0), turns, orders).w, None, now, lookback)
  {
    now := lookback * 60;
    turns, orders := [ShareTurn(a, 60, 0), ShareTurn(a, now + 60, now)], [[a], [a]];
    var h := TwoShareTurns(Head(START, 0), turns, orders, now, a);
    TwoMinutes(h.w, a, now, 1.0);
  }

  lemma {:induction false} TwoShareTurns(h: Head, turns: seq<Turn>, orders: seq<seq<string>>, now: nat, a: string)
      returns (h2: Head)
    requires h.w == START && h.lastFlush == 0 && now > RETENTION && now % 60 == 0
    requires |turns| == 2 && turns[0] == ShareTurn(a, 60, 0) && turns[1] == ShareTurn(a, now + 60, now)
    requires |orders| == 2 && orders[0] == [a] == orders[1]
    ensures Reaches(h, turns, orders, h2)
    ensures h2.w.full == [MinuteRow(a, 0, 1.0)] + [MinuteRow(a, now, 1.0)]
    ensures h2.w.tables.minutes == [MinuteRow(a, now, 1.0)]
  {
    StartValid();
    var h1 := ShareTurnFlushes(h, turns[0], a, 60, 0, orders[0]);
    assert h1.w.full == [MinuteRow(a, 0, 1.0)];
    h2 := ShareTurnFlushes(h1, turns[1], a, now + 60, now, orders[1]);
    TwoTurns(h, h1, h2, turns, orders);
  }

  /** The bound is exact: a day of minutes is the longest lookback in which pruning never
      shows, whatever the loop is given under a clock that goes forward. */
  lemma {:induction false} PruningInvisibleExactly(lookback: nat)
    ensures lookback <= 1440 <==>
            forall instant: nat, turns: seq<Turn>, orders: seq<seq<string>>, now: nat, who: Option<string> ::
              Walks(Head(START, instant), turns, orders) && TurnsForward(turns, now) ==>
                Unpruned(RunTurns(Head(START, instant), turns, orders).w, who, now, lookback)
  {
    if lookback <= 1440 {
      forall instant: nat, turns: seq<Turn>, orders: seq<seq<string>>, now: nat, who: Option<string>
        | Walks(Head(START, instant), turns, orders) && TurnsForward(turns, now)
        ensures Unpruned(RunTurns(Head(START, instant), turns, orders).w, who, now, lookback)
      {
        var h := Head(START, instant);
        TurnsAreSteps(h, turns, orders);
        TurnsKeepTime(h, turns, orders, now);
        PruningInvisible(RunOps(h, turns, orders), now, lookback, who);
      }
    } else {
      var turns, orders, now := LongerLookbackSeesPruning(lookback, "");
    }
  }
}
