/** What every run of the database worker keeps, whatever is flushed when and fails. */
module DatabaseRuns {
  import opened Bytes
  import opened Tables
  import opened Database

  datatype Op = Enqueue(event: DbEvent) | TryFlush(now: nat, order: seq<string>, budget: nat)

  predicate Enabled(w: Worker, op: Op) {
    op.TryFlush? ==> IsOrder(op.order, w.windows)
  }

  function Step(w: Worker, op: Op): Worker
    requires Enabled(w, op)
  {
    match op
    case Enqueue(e) => Push(w, e)
    case TryFlush(now, order, budget) => Flush(w, now, order, budget)
  }

  predicate Allowed(w: Worker, ops: seq<Op>)
    decreases ops
  {
    ops == [] || (Enabled(w, ops[0]) && Allowed(Step(w, ops[0]), ops[1..]))
  }

  function Exec(w: Worker, ops: seq<Op>): Worker
    requires Allowed(w, ops)
    decreases ops
  {
    if ops == [] then w else Exec(Step(w, ops[0]), ops[1..])
  }

  function Sent(ops: seq<Op>): seq<DbEvent> {
    if ops == [] then []
    else (if ops[0].Enqueue? then [ops[0].event] else []) + Sent(ops[1..])
  }

  lemma {:induction false} RunKeepsValid(w: Worker, ops: seq<Op>)
    requires Valid(w) && Allowed(w, ops)
    ensures Valid(Exec(w, ops))
    ensures Exec(w, ops).past + Exec(w, ops).pending == w.past + w.pending + Sent(ops)
    ensures w.past <= Exec(w, ops).past
    decreases ops
  {
    if ops != [] {
      var w' := Step(w, ops[0]);
      StepKeeps(w, ops[0]);
      RunKeepsValid(w', ops[1..]);
      Associative(w.past + w.pending, if ops[0].Enqueue? then [ops[0].event] else [], Sent(ops[1..]));
    } else {
      assert w.past + w.pending + [] == w.past + w.pending;
    }
  }

  lemma {:induction false} StepKeeps(w: Worker, op: Op)
    requires Valid(w) && Enabled(w, op)
    ensures Valid(Step(w, op)) && w.past <= Step(w, op).past
    ensures Step(w, op).past + Step(w, op).pending == w.past + w.pending + (if op.Enqueue? then [op.event] else [])
  {
    match op {
      case Enqueue(e) =>
        PushKeepsValid(w, e);
        Associative(w.past, w.pending, [e]);
      case TryFlush(now, order, budget) =>
        FlushKeepsValid(w, now, order, budget);
        assert w.past + w.pending + [] == w.past + w.pending;
    }
  }

  // ── Batching refines immediate writes ─────────────────────────────────────

  /** Each event written by itself, as it comes. */
  function ApplyEvent(t: Tables, e: DbEvent): Tables {
    match e
    case ShareEvent(s) => ApplyShare(t, s)
    case MinerConnected(m) => InsertMiner(t, m)
  }

  function Immediate(es: seq<DbEvent>): Tables {
    if es == [] then EMPTY else ApplyEvent(Immediate(es[..|es| - 1]), es[|es| - 1])
  }

  lemma {:induction false} ImmediateHolds(es: seq<DbEvent>)
    ensures MinersHold(Immediate(es), MinersOf(es)) && SharesHold(Immediate(es), SharesOf(es))
  {
    if es != [] {
      var n := |es| - 1;
      ImmediateHolds(es[..n]);
      match es[n] {
        case ShareEvent(s) =>
          ApplyShareHolds(Immediate(es[..n]), SharesOf(es[..n]), s);
          assert MinersOf(es) == MinersOf(es[..n]);
        case MinerConnected(m) => MinerKeepsRows(Immediate(es[..n]), SharesOf(es[..n]), MinersOf(es[..n]), m);
      }
    }
  }

  lemma {:induction false} MinerKeepsRows(t: Tables, ss: seq<Share>, ms: seq<Miner>, m: Miner)
    requires MinersHold(t, ms) && SharesHold(t, ss)
    ensures MinersHold(InsertMiner(t, m), ms + [m]) && SharesHold(InsertMiner(t, m), ss)
  {
    assert (ms + [m])[..|ms|] == ms;
    SameRows(t, InsertMiner(t, m), ss);
  }

  datatype Stat = Stat(count: nat, total: real, best: Option<Hash>)
  datatype View = View(miners: map<string, int>, shares: seq<Share>, stats: map<string, Stat>)

  /** The tables without what depends on flush times. */
  function ViewOf(t: Tables): View {
    View(t.miners, t.shares, map a | a in t.epoch :: Stat(t.epoch[a].count, t.epoch[a].total, t.epoch[a].best))
  }

  lemma {:induction false} HistoryDetermines(t: Tables, u: Tables, ms: seq<Miner>, ss: seq<Share>)
    requires MinersHold(t, ms) && MinersHold(u, ms) && SharesHold(t, ss) && SharesHold(u, ss)
    ensures ViewOf(t) == ViewOf(u)
  {
    forall a: string ensures (a in t.miners <==> a in u.miners) && (a in t.miners ==> t.miners[a] == u.miners[a]) {
      assert FirstSeen(ms, a) == if a in t.miners then Some(t.miners[a]) else None;
      assert FirstSeen(ms, a) == if a in u.miners then Some(u.miners[a]) else None;
    }
    forall a: string
      ensures a in t.epoch <==> a in u.epoch
      ensures a in t.epoch ==> ViewOf(t).stats[a] == ViewOf(u).stats[a]
    {
      assert RowHolds(t, ss, a) && RowHolds(u, ss, a);
      if a in t.epoch {
        BestUnique(ss, a, t.epoch[a].best.value, u.epoch[a].best.value);
      }
    }
    assert ViewOf(t).stats == ViewOf(u).stats;
  }

  lemma {:induction false} BestUnique(ss: seq<Share>, a: string, g: Hash, h: Hash)
    requires IsBest(ss, a, g) && IsBest(ss, a, h)
    ensures g == h
  {
    ValueInjective(g, h);
  }

  /** Exactly once, in order: at every point of every run the events sent are those
      committed followed by those pending, and the tables are what writing the committed
      ones immediately gives. */
  lemma {:induction false} BatchingRefinesImmediate(ops: seq<Op>)
    requires Allowed(START, ops)
    ensures var w := Exec(START, ops);
            && w.past + w.pending == Sent(ops)
            && ViewOf(w.tables) == ViewOf(Immediate(w.past))
            && (w.pending == [] ==> ViewOf(w.tables) == ViewOf(Immediate(Sent(ops))))
  {
    StartValid();
    RunKeepsValid(START, ops);
    var w := Exec(START, ops);
    assert [] + [] + Sent(ops) == Sent(ops);
    ImmediateHolds(w.past);
    HistoryDetermines(w.tables, Immediate(w.past), MinersOf(w.past), SharesOf(w.past));
    assert w.pending == [] ==> w.past + w.pending == w.past;
  }

  /** In every reachable state no stored best hash is NULL, every best hash is the least of
      the miner's committed shares, and minutes kept <= active minutes <= shares. */
  lemma {:induction false} ReachableRows(ops: seq<Op>, a: string)
    requires Allowed(START, ops)
    ensures var w := Exec(START, ops);
            && (a in w.windows <==> exists s :: s in w.shares && s.address == a)
            && (a in w.windows ==> w.windows[a] == Total(w.shares, a))
            && UniqueKeys(w.tables.minutes)
            && CountRows(w.tables.minutes, a) <= Active(w.tables, a) <= Count(SharesOf(w.past), a)
            && (a in w.tables.epoch ==>
                  var best := w.tables.epoch[a].best;
                  best.Some? && IsBest(SharesOf(w.past), a, best.value))
  {
    StartValid();
    RunKeepsValid(START, ops);
    var w := Exec(START, ops);
    assert RowHolds(w.tables, SharesOf(w.past), a);
    NoShareNoHash(w.shares, a);
    if Count(w.shares, a) > 0 {
      NoShareNoAddress(w.shares, a);
    }
  }

  // ── Hashrates ─────────────────────────────────────────────────────────────

  /** The clock never goes back, from `from` to `to`. */
  predicate ClockForward(ops: seq<Op>, from: nat, to: nat) {
    if ops == [] then from <= to
    else match ops[0]
      case Enqueue(_) => ClockForward(ops[1..], from, to)
      case TryFlush(now, _, _) => from <= now && ClockForward(ops[1..], now, to)
  }

  lemma {:induction false} SteadyRun(w: Worker, ops: seq<Op>, from: nat, to: nat)
    requires Allowed(w, ops) && ClockForward(ops, from, to)
    requires w.steady && w.last <= from
    requires exists t: nat :: w.last == FloorMinute(t) <= from
    ensures Exec(w, ops).steady && Exec(w, ops).last <= to
    decreases ops
  {
    if ops != [] {
      var w' := Step(w, ops[0]);
      match ops[0] {
        case Enqueue(_) => SteadyRun(w', ops[1..], from, to);
        case TryFlush(now, order, budget) =>
          var t: nat :| w.last == FloorMinute(t) <= from;
          FloorMonotone(t, now);
          if w' == w {
            assert w.last == FloorMinute(t) <= now;
          } else {
            assert w'.last == FloorMinute(now) <= now;
          }
          SteadyRun(w', ops[1..], now, to);
      }
    }
  }

  lemma {:induction false} FloorMonotone(t: nat, now: nat)
    ensures FloorMinute(t) <= now ==> FloorMinute(t) <= FloorMinute(now)
  {
  }

  lemma {:induction false} SteadyFromStart(ops: seq<Op>, now: nat)
    requires Allowed(START, ops) && ClockForward(ops, 0, now)
    ensures var w := Exec(START, ops);
            Valid(w) && w.tables.minutes == Prune(w.full, w.last - RETENTION) && w.last <= now
  {
    StartValid();
    RunKeepsValid(START, ops);
    assert START.last == FloorMinute(0);
    SteadyRun(START, ops, 0, now);
  }

  function Cutoff(now: nat, lookback: nat): int { now - lookback * 60 }

  /** `hashrate_for_address` and, without an address, `pool_hashrate`; no value at lookback 0. */
  function Hashrate(rows: seq<MinuteRow>, who: Option<string>, now: nat, lookback: nat): Option<real> {
    if lookback == 0 then None
    else Some(SumRows(rows, who, Some(Cutoff(now, lookback))) * 4294967296.0 / (lookback as real * 60.0))
  }

  /** Pruning is invisible to a query over at most a day: the pruned table answers like
      the whole history. */
  lemma {:induction false} PruningInvisible(ops: seq<Op>, now: nat, lookback: nat, who: Option<string>)
    requires Allowed(START, ops) && ClockForward(ops, 0, now) && lookback <= 1440
    ensures var w := Exec(START, ops);
            SumRows(w.tables.minutes, who, Some(Cutoff(now, lookback)))
              == SumRows(w.full, who, Some(Cutoff(now, lookback)))
            && Hashrate(w.tables.minutes, who, now, lookback) == Hashrate(w.full, who, now, lookback)
  {
    SteadyFromStart(ops, now);
    var w := Exec(START, ops);
    PruneUnseen(w.full, w.last - RETENTION, who, Cutoff(now, lookback));
  }

  lemma {:induction false} Concat(w: Worker, ops: seq<Op>, more: seq<Op>)
    requires Allowed(w, ops) && Allowed(Exec(w, ops), more)
    ensures Allowed(w, ops + more) && Exec(w, ops + more) == Exec(Exec(w, ops), more)
    decreases |ops|
  {
    if ops == [] {
      assert ops + more == more;
    } else {
      assert (ops + more)[1..] == ops[1..] + more && (ops + more)[0] == ops[0];
      Concat(Step(w, ops[0]), ops[1..], more);
    }
  }

  lemma {:induction false} SentConcat(ops: seq<Op>, more: seq<Op>)
    ensures Sent(ops + more) == Sent(ops) + Sent(more)
    decreases |ops|
  {
    if ops == [] {
      assert ops + more == more;
    } else {
      var all := ops + more;
      assert all[1..] == ops[1..] + more && all[0] == ops[0];
      SentConcat(ops[1..], more);
      Associative(if ops[0].Enqueue? then [ops[0].event] else [], Sent(ops[1..]), Sent(more));
    }
  }

  lemma {:induction false} ClockConcat(ops: seq<Op>, more: seq<Op>, from: nat, mid: nat, to: nat)
    requires ClockForward(ops, from, mid) && ClockForward(more, mid, to)
    ensures ClockForward(ops + more, from, to)
    decreases |ops|
  {
    if ops == [] {
      assert ops + more == more;
      EarlierStart(more, from, mid, to);
    } else {
      assert (ops + more)[1..] == ops[1..] + more;
      ClockConcat(ops[1..], more, if ops[0].TryFlush? then ops[0].now else from, mid, to);
    }
  }

  lemma {:induction false} EarlierStart(ops: seq<Op>, from: nat, mid: nat, to: nat)
    requires from <= mid && ClockForward(ops, mid, to)
    ensures ClockForward(ops, from, to)
  {
    if ops != [] && ops[0].Enqueue? {
      EarlierStart(ops[1..], from, mid, to);
    }
  }

  function SumOfHashrates(rows: seq<MinuteRow>, addresses: seq<string>, now: nat, lookback: nat): real
    requires lookback > 0
  {
    if addresses == [] then 0.0
    else Hashrate(rows, Some(addresses[0]), now, lookback).value + SumOfHashrates(rows, addresses[1..], now, lookback)
  }

  lemma {:induction false} RatesScale(rows: seq<MinuteRow>, addresses: seq<string>, now: nat, lookback: nat)
    requires lookback > 0
    ensures SumOfHashrates(rows, addresses, now, lookback)
            == SumOverAddresses(rows, addresses, Some(Cutoff(now, lookback))) * 4294967296.0 / (lookback as real * 60.0)
  {
    if addresses != [] {
      RatesScale(rows, addresses[1..], now, lookback);
      Distribute(SumRows(rows, Some(addresses[0]), Some(Cutoff(now, lookback))),
                 SumOverAddresses(rows, addresses[1..], Some(Cutoff(now, lookback))), lookback as real * 60.0);
    }
  }

  lemma {:induction false} Distribute(x: real, y: real, d: real)
    requires d > 0.0
    ensures (x + y) * 4294967296.0 / d == x * 4294967296.0 / d + y * 4294967296.0 / d
  {
  }

  /** The pool's hashrate is the sum of its miners'. */
  lemma {:induction false} PoolHashrateIsSum(rows: seq<MinuteRow>, addresses: seq<string>, now: nat, lookback: nat)
    requires lookback > 0 && Distinct(addresses) && forall r :: r in rows ==> r.address in addresses
    ensures Hashrate(rows, None, now, lookback) == Some(SumOfHashrates(rows, addresses, now, lookback))
  {
    EveryoneIsTheSum(rows, addresses, Some(Cutoff(now, lookback)));
    RatesScale(rows, addresses, now, lookback);
  }

  /** All difficulty ever committed for a miner is in its kept and its pruned minutes. */
  lemma {:induction false} DifficultyConserved(ops: seq<Op>, now: nat, a: string)
    requires Allowed(START, ops) && ClockForward(ops, 0, now)
    ensures var w := Exec(START, ops);
            Total(SharesOf(w.past), a)
            == SumRows(w.tables.minutes, Some(a), None) + SumRows(Pruned(w.full, w.last - RETENTION), Some(a), None)
  {
    SteadyFromStart(ops, now);
    var w := Exec(START, ops);
    PruneSplitsSum(w.full, w.last - RETENTION, Some(a));
  }
}
