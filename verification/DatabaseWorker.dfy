/** db.rs: the worker thread as it runs, each method proved to do what the steps of
    `Database` say, and each run of the loop to be a run of `DatabaseRuns`. */
module DatabaseWorker {
  import opened Tables
  import opened Database
  import opened DatabaseRuns

  /** What the channel gives the worker: an event, a timeout after a second, or hang-up. */
  datatype Received = Arrived(event: DbEvent) | TimedOut | HungUp

  /** One turn of the loop: the first receive, what `try_recv` then drains and whether it
      ends in hang-up, the two clocks, and how many statements of a flush succeed. */
  datatype Turn = Turn(first: Received, drained: seq<DbEvent>, hungUp: bool, instant: nat, now: nat, budget: nat)

  function EventsOf(turn: Turn): seq<DbEvent> {
    match turn.first
    case Arrived(e) => [e] + turn.drained
    case TimedOut => turn.drained
    case HungUp => []
  }

  function AllEvents(turns: seq<Turn>): seq<DbEvent> {
    if turns == [] then [] else AllEvents(turns[..|turns| - 1]) + EventsOf(turns[|turns| - 1])
  }

  /** Each turn adds the event of its first receive, if any, and those drained after it. */
  lemma {:induction false} ReceivedInOrder(turns: seq<Turn>, turn: Turn)
    ensures AllEvents([]) == []
    ensures AllEvents(turns + [turn])
            == if turn.first.HungUp? then AllEvents(turns)
               else if turn.first.TimedOut? then AllEvents(turns) + turn.drained
               else AllEvents(turns) + [turn.first.event] + turn.drained
  {
    assert (turns + [turn])[..|turns|] == turns && AllEvents(turns) + [] == AllEvents(turns);
  }

  predicate Ends(turn: Turn) {
    turn.first.HungUp? || turn.hungUp
  }

  function PushAll(w: Worker, es: seq<DbEvent>): Worker {
    if es == [] then w else Push(PushAll(w, es[..|es| - 1]), es[|es| - 1])
  }

  function Enqueues(es: seq<DbEvent>): seq<Op> {
    if es == [] then [] else Enqueues(es[..|es| - 1]) + [Enqueue(es[|es| - 1])]
  }

  /** A minute since the last flush, or a thousand shares waiting. */
  predicate Due(w: Worker, lastFlush: nat, turn: Turn) {
    turn.instant >= lastFlush + FLUSH_INTERVAL || |w.shares| >= FLUSH_AT
  }

  predicate Flushes(w: Worker, lastFlush: nat, turn: Turn) {
    Ends(turn) || Due(PushAll(w, EventsOf(turn)), lastFlush, turn)
  }

  /** One turn's work on the state. */
  function Turned(w: Worker, lastFlush: nat, turn: Turn, order: seq<string>): Worker
    requires IsOrder(order, PushAll(w, EventsOf(turn)).windows)
  {
    var w' := PushAll(w, EventsOf(turn));
    if Flushes(w, lastFlush, turn) then Flush(w', turn.now, order, turn.budget) else w'
  }

  function TurnOps(w: Worker, lastFlush: nat, turn: Turn, order: seq<string>): seq<Op> {
    Enqueues(EventsOf(turn)) + (if Flushes(w, lastFlush, turn) then [TryFlush(turn.now, order, turn.budget)] else [])
  }

  /** The wall clock of the turns does not go back, nor beyond `to`. */
  predicate TurnsForward(turns: seq<Turn>, to: nat) {
    && (forall i, j :: 0 <= i < j < |turns| ==> turns[i].now <= turns[j].now)
    && (forall i :: 0 <= i < |turns| ==> turns[i].now <= to)
  }

  // ── Runs of the loop ──────────────────────────────────────────────────────

  /** The state at the head of the loop, and when its flush interval began. */
  datatype Head = Head(w: Worker, lastFlush: nat)

  predicate Fits(h: Head, turn: Turn, order: seq<string>) {
    IsOrder(order, PushAll(h.w, EventsOf(turn)).windows)
  }

  /** A flush before the end begins a new interval. */
  function NextHead(h: Head, turn: Turn, order: seq<string>): Head
    requires Fits(h, turn, order)
  {
    Head(Turned(h.w, h.lastFlush, turn, order),
         if !Ends(turn) && Flushes(h.w, h.lastFlush, turn) then turn.instant else h.lastFlush)
  }

  /** In each turn the windows are walked in the order given for it. */
  predicate Walks(h: Head, turns: seq<Turn>, orders: seq<seq<string>>)
    decreases |turns|, 0
  {
    |orders| == |turns| &&
    (turns == [] ||
     var n := |turns| - 1;
     Walks(h, turns[..n], orders[..n]) && Fits(RunTurns(h, turns[..n], orders[..n]), turns[n], orders[n]))
  }

  function RunTurns(h: Head, turns: seq<Turn>, orders: seq<seq<string>>): Head
    requires Walks(h, turns, orders)
    decreases |turns|, 1
  {
    if turns == [] then h
    else
      var n := |turns| - 1;
      NextHead(RunTurns(h, turns[..n], orders[..n]), turns[n], orders[n])
  }

  /** The run of these turns leads from `h` to `after`. */
  predicate Reaches(h: Head, turns: seq<Turn>, orders: seq<seq<string>>, after: Head) {
    Walks(h, turns, orders) && after == RunTurns(h, turns, orders)
  }

  /** The steps of the batching model that a run takes. */
  function RunOps(h: Head, turns: seq<Turn>, orders: seq<seq<string>>): seq<Op>
    requires Walks(h, turns, orders)
    decreases |turns|
  {
    if turns == [] then []
    else
      var n := |turns| - 1;
      var before := RunTurns(h, turns[..n], orders[..n]);
      RunOps(h, turns[..n], orders[..n]) + TurnOps(before.w, before.lastFlush, turns[n], orders[n])
  }

  // ── A turn is a run of steps ──────────────────────────────────────────────

  lemma {:induction false} OneOp(w: Worker, op: Op)
    requires Enabled(w, op)
    ensures Allowed(w, [op]) && Exec(w, [op]) == Step(w, op)
    ensures Sent([op]) == if op.Enqueue? then [op.event] else []
  {
    var ops := [op];
    assert ops[1..] == [] && Exec(Step(w, op), ops[1..]) == Step(w, op);
  }

  lemma {:induction false} EnqueuesRun(w: Worker, es: seq<DbEvent>)
    ensures Allowed(w, Enqueues(es)) && Exec(w, Enqueues(es)) == PushAll(w, es) && Sent(Enqueues(es)) == es
    decreases |es|
  {
    if es != [] {
      var init, e := es[..|es| - 1], es[|es| - 1];
      EnqueuesRun(w, init);
      OneOp(PushAll(w, init), Enqueue(e));
      Concat(w, Enqueues(init), [Enqueue(e)]);
      SentConcat(Enqueues(init), [Enqueue(e)]);
      assert es == init + [e];
    }
  }

  lemma {:induction false} TurnRuns(w: Worker, lastFlush: nat, turn: Turn, order: seq<string>)
    requires IsOrder(order, PushAll(w, EventsOf(turn)).windows)
    ensures Allowed(w, TurnOps(w, lastFlush, turn, order))
    ensures Exec(w, TurnOps(w, lastFlush, turn, order)) == Turned(w, lastFlush, turn, order)
    ensures Sent(TurnOps(w, lastFlush, turn, order)) == EventsOf(turn)
  {
    var es := EventsOf(turn);
    EnqueuesRun(w, es);
    if Flushes(w, lastFlush, turn) {
      var flush := TryFlush(turn.now, order, turn.budget);
      OneOp(PushAll(w, es), flush);
      Concat(w, Enqueues(es), [flush]);
      SentConcat(Enqueues(es), [flush]);
      assert es + [] == es;
    } else {
      assert Enqueues(es) + [] == Enqueues(es);
    }
  }

  lemma {:induction false} EnqueuesKeepTime(es: seq<DbEvent>, from: nat, to: nat)
    requires from <= to
    ensures ClockForward(Enqueues(es), from, to)
    decreases |es|
  {
    if es != [] {
      var init := Enqueues(es[..|es| - 1]);
      var last := [Enqueue(es[|es| - 1])];
      EnqueuesKeepTime(es[..|es| - 1], from, to);
      assert last[1..] == [];
      ClockConcat(init, last, from, to, to);
    }
  }

  lemma {:induction false} TurnClock(w: Worker, lastFlush: nat, turn: Turn, order: seq<string>, from: nat, to: nat)
    requires from <= turn.now <= to
    ensures ClockForward(TurnOps(w, lastFlush, turn, order), from, to)
  {
    var enqueues := Enqueues(EventsOf(turn));
    var flush := [TryFlush(turn.now, order, turn.budget)];
    assert flush[1..] == [];
    if Flushes(w, lastFlush, turn) {
      EnqueuesKeepTime(EventsOf(turn), from, turn.now);
      ClockConcat(enqueues, flush, from, turn.now, to);
    } else {
      EnqueuesKeepTime(EventsOf(turn), from, to);
      assert enqueues + [] == enqueues;
    }
  }

  /** A window exists for exactly the addresses with shares in `ss`, and is their sum. */
  ghost predicate Coupled(windows: map<string, real>, ss: seq<Share>) {
    forall a: string :: (a in windows <==> HasShare(ss, a)) && (a in windows ==> windows[a] == Total(ss, a))
  }

  predicate HasShare(ss: seq<Share>, a: string) {
    exists s :: s in ss && s.address == a
  }

  lemma {:induction false} PushCouples(w: Worker, w': Worker, e: DbEvent)
    requires Valid(w) && w' == Push(w, e)
    ensures Valid(w') && Coupled(w'.windows, SharesOf(w'.pending))
  {
    PushKeepsValid(w, e);
    var ss := SharesOf(w'.pending);
    forall a: string
      ensures a in w'.windows <==> HasShare(ss, a)
      ensures a in w'.windows ==> w'.windows[a] == Total(ss, a)
    {
      NoShareNoHash(ss, a);
      if Count(ss, a) > 0 {
        NoShareNoAddress(ss, a);
      }
    }
  }

  // ── The worker ────────────────────────────────────────────────────────────

  class DbWorker {
    var tables: Tables
    var shares: seq<Share>
    var miners: seq<Miner>
    var windows: map<string, real>
    var lastFlush: nat
    ghost var past: seq<DbEvent>
    ghost var pending: seq<DbEvent>
    ghost var full: seq<MinuteRow>
    ghost var last: int
    ghost var steady: bool

    ghost function State(): Worker
      reads this
    {
      Worker(tables, shares, miners, windows, past, pending, full, last, steady)
    }

    constructor (instant: nat)
      ensures State() == START && lastFlush == instant
    {
      tables, shares, miners, windows, lastFlush := EMPTY, [], [], map[], instant;
      past, pending, full, last, steady := [], [], [], 0, true;
    }

    method PushEvent(e: DbEvent)
      modifies this
      ensures State() == Push(old(State()), e) && lastFlush == old(lastFlush)
      ensures pending == old(pending) + [e]
      ensures old(Valid(State())) ==> Valid(State()) && Coupled(windows, SharesOf(pending))
    {
      ghost var w := State();
      match e {
        case ShareEvent(s) =>
          var sum := if s.address in windows then windows[s.address] else 0.0;
          windows := windows[s.address := sum + s.difficulty];
          shares := shares + [s];
        case MinerConnected(m) =>
          miners := miners + [m];
      }
      pending := pending + [e];
      assert State() == Push(w, e);
      if Valid(w) {
        PushCouples(w, State(), e);
      }
    }

    /** Each statement of a transaction works on its copy of the tables, while any are `left`. */
    method WriteMiners(tables: Tables, budget: nat) returns (ok: bool, tx: Tables, left: nat)
      ensures ok <==> budget >= |miners|
      ensures ok ==> tx == ApplyMiners(tables, miners) && left == budget - |miners|
    {
      tx, left := tables, budget;
      for i := 0 to |miners|
        invariant tx == ApplyMiners(tables, miners[..i]) && left == budget - i
      {
        if left == 0 { return false, tx, left; }
        left, tx := left - 1, InsertMiner(tx, miners[i]);
        assert miners[..i + 1][..i] == miners[..i];
      }
      assert miners[..|miners|] == miners;
      ok := true;
    }

    method WriteShares(tables: Tables, budget: nat) returns (ok: bool, tx: Tables, left: nat)
      ensures ok <==> budget >= 2 * |shares|
      ensures ok ==> tx == ApplyShares(tables, shares) && left == budget - 2 * |shares|
    {
      tx, left := tables, budget;
      for i := 0 to |shares|
        invariant tx == ApplyShares(tables, shares[..i]) && left == budget - 2 * i
      {
        if left == 0 { return false, tx, left; }
        left, tx := left - 1, InsertShare(tx, shares[i]);
        if left == 0 { return false, tx, left; }
        left, tx := left - 1, UpsertShareStats(tx, shares[i]);
        assert shares[..i + 1][..i] == shares[..i];
      }
      assert shares[..|shares|] == shares;
      ok := true;
    }

    method WriteWindows(tables: Tables, order: seq<string>, minute: int, budget: nat)
        returns (ok: bool, tx: Tables, left: nat)
      requires IsOrder(order, windows)
      ensures ok <==> budget >= 2 * |order|
      ensures ok ==> tx == ApplyWindows(tables, windows, order, minute) && left == budget - 2 * |order|
    {
      tx, left := tables, budget;
      for i := 0 to |order|
        invariant tx == ApplyWindows(tables, windows, order[..i], minute) && left == budget - 2 * i
      {
        var a := order[i];
        if left == 0 { return false, tx, left; }
        left, tx := left - 1, tx.(minutes := AddMinute(tx.minutes, a, minute, windows[a]));
        if left == 0 { return false, tx, left; }
        left, tx := left - 1, UpsertActive(tx, a);
        assert order[..i + 1][..i] == order[..i];
      }
      assert order[..|order|] == order;
      ok := true;
    }

    /** `flush_inner`: only COMMIT makes the copy the database. */
    method FlushInner(minute: int, order: seq<string>, budget: nat) returns (ok: bool)
      requires IsOrder(order, windows)
      modifies this`tables
      ensures ok <==> budget >= Statements(old(State()), order)
      ensures tables == if ok then FlushedTables(old(State()), order, minute) else old(tables)
    {
      if budget == 0 { return false; }
      var left: nat := budget - 1;
      var tx: Tables;
      ok, tx, left := WriteMiners(tables, left);
      if !ok { return; }
      ok, tx, left := WriteShares(tx, left);
      if !ok { return; }
      ok, tx, left := WriteWindows(tx, order, minute, left);
      if !ok { return; }
      if left == 0 { return false; }
      left, tx := left - 1, tx.(minutes := Prune(tx.minutes, minute - RETENTION));
      if left == 0 { return false; }
      tables := tx;
    }

    /** The order in which the hash map happens to be walked. */
    method Walk() returns (order: seq<string>)
      ensures IsOrder(order, windows)
    {
      order := [];
      var rest := windows.Keys;
      while rest != {}
        invariant Distinct(order) && rest <= windows.Keys
        invariant forall a :: a in order ==> a in windows && a !in rest
        invariant forall a :: a in windows ==> a in order || a in rest
      {
        var a :| a in rest;
        order, rest := order + [a], rest - {a};
      }
    }

    /** `flush`: after an error the batches stay for the next attempt. */
    method FlushBatches(now: nat, budget: nat) returns (ghost order: seq<string>)
      modifies this`tables, this`shares, this`miners, this`windows, this`past, this`pending, this`full, this`last,
        this`steady
      ensures IsOrder(order, old(windows))
      ensures State() == Flush(old(State()), now, order, budget)
    {
      var walk := Walk();
      order := walk;
      if shares == [] && miners == [] && windows == map[] {
        return;
      }
      ghost var w := Flush(State(), now, walk, budget);
      var minute := FloorMinute(now);
      var ok := FlushInner(minute, walk, budget);
      if ok {
        full, last, steady, past, pending := w.full, w.last, w.steady, w.past, w.pending;
        shares, miners, windows := [], [], map[];
      }
    }

    method Drain(events: seq<DbEvent>)
      modifies this
      ensures State() == PushAll(old(State()), events) && lastFlush == old(lastFlush)
    {
      for i := 0 to |events|
        invariant State() == PushAll(old(State()), events[..i]) && lastFlush == old(lastFlush)
      {
        assert events[..i + 1][..i] == events[..i];
        PushEvent(events[i]);
      }
      assert events[..|events|] == events;
    }

    /** One pass of the loop. Hang-up on the first receive skips the drain; a flush before
        the end is followed by a new start of the interval. */
    method TakeTurn(turn: Turn) returns (stop: bool, ghost order: seq<string>)
      modifies this
      ensures IsOrder(order, PushAll(old(State()), EventsOf(turn)).windows)
      ensures State() == Turned(old(State()), old(lastFlush), turn, order)
      ensures stop <==> Ends(turn)
      ensures lastFlush == if !stop && Flushes(old(State()), old(lastFlush), turn) then turn.instant else old(lastFlush)
    {
      if turn.first.HungUp? {
        order := FlushBatches(turn.now, turn.budget);
        return true, order;
      }
      Receive(turn);
      if turn.hungUp {
        order := FlushBatches(turn.now, turn.budget);
        return true, order;
      }
      if turn.instant >= lastFlush + FLUSH_INTERVAL || |shares| >= FLUSH_AT {
        order := FlushBatches(turn.now, turn.budget);
        ghost var w := State();
        lastFlush := turn.instant;
        assert State() == w;
      } else {
        order := Walk();
      }
      stop := false;
    }

    method Receive(turn: Turn)
      requires !turn.first.HungUp?
      modifies this
      ensures State() == PushAll(old(State()), EventsOf(turn)) && lastFlush == old(lastFlush)
    {
      if turn.first.Arrived? {
        PushEvent(turn.first.event);
      }
      ghost var w := State();
      Drain(turn.drained);
      PushFirst(old(State()), turn, w);
    }

    /** One more turn of a run that began at `h0`. */
    method NextTurn(ghost h0: Head, turns: seq<Turn>, n: nat, ghost orders: seq<seq<string>>)
        returns (stop: bool, ghost more: seq<seq<string>>)
      requires n < |turns| && Reaches(h0, turns[..n], orders, Head(State(), lastFlush))
      modifies this
      ensures Reaches(h0, turns[..n + 1], more, Head(State(), lastFlush)) && (stop <==> Ends(turns[n]))
    {
      ghost var h := Head(State(), lastFlush);
      ghost var order;
      stop, order := TakeTurn(turns[n]);
      more := orders + [order];
      OneMoreTurn(h0, turns, n, orders, order, h, Head(State(), lastFlush));
    }

    /** The loop of `run_worker`. */
    method TakeTurns(turns: seq<Turn>) returns (n: nat, stopped: bool, ghost orders: seq<seq<string>>)
      modifies this
      ensures LoopsUntil(turns, n, stopped)
      ensures Reaches(old(Head(State(), lastFlush)), turns[..n], orders, Head(State(), lastFlush))
    {
      n, stopped, orders := 0, false, [];
      ghost var h0 := Head(State(), lastFlush);
      assert turns[..0] == [];
      while n < |turns| && !stopped
        invariant n <= |turns| && (forall i :: 0 <= i < n - 1 ==> !Ends(turns[i]))
        invariant stopped <==> n > 0 && Ends(turns[n - 1])
        invariant Reaches(h0, turns[..n], orders, Head(State(), lastFlush))
      {
        stopped, orders := NextTurn(h0, turns, n, orders);
        n := n + 1;
      }
    }

    /** `run_worker`, over the turns the channel and the clocks give it: exactly the run of
        these turns, up to the first that hangs up, with all that `AtHead` says of it. */
    method RunWorker(turns: seq<Turn>) returns (n: nat, stopped: bool, ghost orders: seq<seq<string>>)
      requires Valid(State())
      modifies this
      ensures LoopsUntil(turns, n, stopped)
      ensures Reaches(old(Head(State(), lastFlush)), turns[..n], orders, Head(State(), lastFlush))
      ensures AtHead(old(Head(State(), lastFlush)), turns[..n], orders, Head(State(), lastFlush))
    {
      ghost var h0 := Head(State(), lastFlush);
      n, stopped, orders := TakeTurns(turns);
      HeadFacts(h0, turns[..n], orders);
    }
  }

  /** The loop takes all turns up to the first that hangs up. */
  predicate LoopsUntil(turns: seq<Turn>, n: nat, stopped: bool) {
    && n <= |turns| && (forall i :: 0 <= i < n - 1 ==> !Ends(turns[i]))
    && (stopped <==> n > 0 && Ends(turns[n - 1]))
    && (!stopped ==> n == |turns|)
  }

  lemma {:induction false} OneMoreTurn(h: Head, turns: seq<Turn>, n: nat, orders: seq<seq<string>>, order: seq<string>,
      before: Head, after: Head)
    requires n < |turns| && Reaches(h, turns[..n], orders, before)
    requires Fits(before, turns[n], order) && after == NextHead(before, turns[n], order)
    ensures Reaches(h, turns[..n + 1], orders + [order], after)
  {
    assert turns[..n + 1][..n] == turns[..n] && (orders + [order])[..n] == orders;
  }

  // ── What a run of the loop keeps ──────────────────────────────────────────

  /** A run is one of steps of the batching model, which receive the events of the turns. */
  lemma {:induction false} TurnsAreSteps(h: Head, turns: seq<Turn>, orders: seq<seq<string>>)
    requires Walks(h, turns, orders)
    ensures Allowed(h.w, RunOps(h, turns, orders))
    ensures Exec(h.w, RunOps(h, turns, orders)) == RunTurns(h, turns, orders).w
    ensures Sent(RunOps(h, turns, orders)) == AllEvents(turns)
    decreases |turns|
  {
    if turns != [] {
      var n := |turns| - 1;
      var before := RunTurns(h, turns[..n], orders[..n]);
      TurnsAreSteps(h, turns[..n], orders[..n]);
      var ops, more := RunOps(h, turns[..n], orders[..n]), TurnOps(before.w, before.lastFlush, turns[n], orders[n]);
      TurnRuns(before.w, before.lastFlush, turns[n], orders[n]);
      Concat(h.w, ops, more);
      SentConcat(ops, more);
    }
  }

  lemma {:induction false} TurnsKeepTime(h: Head, turns: seq<Turn>, orders: seq<seq<string>>, to: nat)
    requires Walks(h, turns, orders) && TurnsForward(turns, to)
    ensures ClockForward(RunOps(h, turns, orders), 0, to)
    decreases |turns|
  {
    if turns != [] {
      var n := |turns| - 1;
      var before := RunTurns(h, turns[..n], orders[..n]);
      TurnsKeepTime(h, turns[..n], orders[..n], turns[n].now);
      TurnClock(before.w, before.lastFlush, turns[n], orders[n], turns[n].now, to);
      ClockConcat(RunOps(h, turns[..n], orders[..n]), TurnOps(before.w, before.lastFlush, turns[n], orders[n]), 0,
                  turns[n].now, to);
    }
  }

  /** Turn `i` of the run tries a flush. */
  predicate FlushesAt(h: Head, turns: seq<Turn>, orders: seq<seq<string>>, i: nat) {
    && i < |turns| == |orders| && Walks(h, turns[..i], orders[..i])
    && var before := RunTurns(h, turns[..i], orders[..i]);
       Flushes(before.w, before.lastFlush, turns[i])
  }

  /** The interval began with the run or with the last turn, of those before the end, that
      tried a flush. */
  ghost predicate Since(h: Head, turns: seq<Turn>, orders: seq<seq<string>>, lastFlush: nat, k: nat) {
    && k <= |turns|
    && (if k == 0 then lastFlush == h.lastFlush
        else lastFlush == turns[k - 1].instant && !Ends(turns[k - 1]) && FlushesAt(h, turns, orders, k - 1))
    && (forall i :: k <= i < |turns| ==> Ends(turns[i]) || !FlushesAt(h, turns, orders, i))
  }

  lemma {:induction false} IntervalStart(h: Head, turns: seq<Turn>, orders: seq<seq<string>>) returns (k: nat)
    requires Walks(h, turns, orders)
    ensures Since(h, turns, orders, RunTurns(h, turns, orders).lastFlush, k)
    decreases |turns|
  {
    k := 0;
    if turns != [] {
      var n := |turns| - 1;
      k := IntervalStart(h, turns[..n], orders[..n]);
      var before := RunTurns(h, turns[..n], orders[..n]);
      if !Ends(turns[n]) && Flushes(before.w, before.lastFlush, turns[n]) {
        k := n + 1;
      } else {
        SinceLonger(h, turns, orders, before.lastFlush, k);
      }
    }
  }

  lemma {:induction false} FlushedBefore(h: Head, turns: seq<Turn>, orders: seq<seq<string>>, n: nat, i: nat)
    requires i < n <= |turns| == |orders|
    ensures FlushesAt(h, turns[..n], orders[..n], i) <==> FlushesAt(h, turns, orders, i)
  {
    assert turns[..n][..i] == turns[..i] && orders[..n][..i] == orders[..i];
  }

  lemma {:induction false} SinceLonger(h: Head, turns: seq<Turn>, orders: seq<seq<string>>, lastFlush: nat, k: nat)
    requires |turns| == |orders| && turns != []
    requires var n := |turns| - 1;
             Since(h, turns[..n], orders[..n], lastFlush, k) && (Ends(turns[n]) || !FlushesAt(h, turns, orders, n))
    ensures Since(h, turns, orders, lastFlush, k)
  {
    var n := |turns| - 1;
    forall i: nat | i < n ensures FlushesAt(h, turns[..n], orders[..n], i) <==> FlushesAt(h, turns, orders, i) {
      FlushedBefore(h, turns, orders, n, i);
    }
  }

  /** A turn that does not hang up, within a minute of the last flush and with fewer than a
      thousand shares waiting, flushes nothing. Any other flushes: nothing is pending then,
      except exactly where the flush failed, and unless it hung up the interval begins anew.
      So no flush is overdue and fewer than a thousand shares wait, but for a failed flush. */
  predicate Rested(h: Head, turn: Turn, h': Head) {
    var w := PushAll(h.w, EventsOf(turn));
    var flushed := if Fails(w, turn.budget) then h'.w == w else h'.w.pending == [];
    if turn.first.HungUp? || turn.hungUp then flushed
    else
      && (if turn.instant < h.lastFlush + 60 && |w.shares| < 1000 then h' == Head(w, h.lastFlush)
          else flushed && h'.lastFlush == turn.instant)
      && turn.instant < h'.lastFlush + 60
      && (|h'.w.shares| < 1000 <==> !(|w.shares| >= 1000 && Fails(w, turn.budget)))
  }

  lemma {:induction false} TurnRests(h: Head, turn: Turn, order: seq<string>)
    requires Valid(h.w) && Fits(h, turn, order)
    ensures Rested(h, turn, NextHead(h, turn, order))
  {
    var es := EventsOf(turn);
    EnqueuesRun(h.w, es);
    RunKeepsValid(h.w, Enqueues(es));
    FlushOutcome(PushAll(h.w, es), turn.now, order, turn.budget);
    KindsCount(PushAll(h.w, es).pending);
  }

  /** What holds at the head of the loop after a run: it was one of steps of the batching
      model, which received each event of the turns once and in order and kept the clock's
      order; the flush interval began with the last flush tried; and the last turn left no
      more waiting than it had to. */
  ghost predicate AtHead(h0: Head, turns: seq<Turn>, orders: seq<seq<string>>, h: Head)
    requires Walks(h0, turns, orders)
  {
    var ops := RunOps(h0, turns, orders);
    && Allowed(h0.w, ops) && h.w == Exec(h0.w, ops) && Sent(ops) == AllEvents(turns)
    && (forall to: nat :: TurnsForward(turns, to) ==> ClockForward(ops, 0, to))
    && Valid(h.w) && h.w.past + h.w.pending == h0.w.past + h0.w.pending + AllEvents(turns) && h0.w.past <= h.w.past
    && (exists k: nat :: Since(h0, turns, orders, h.lastFlush, k))
    && (turns != [] ==>
          var n := |turns| - 1;
          Rested(RunTurns(h0, turns[..n], orders[..n]), turns[n], h))
  }

  lemma {:induction false} HeadFacts(h: Head, turns: seq<Turn>, orders: seq<seq<string>>)
    requires Valid(h.w) && Walks(h, turns, orders)
    ensures AtHead(h, turns, orders, RunTurns(h, turns, orders))
  {
    TurnsAreSteps(h, turns, orders);
    RunKeepsValid(h.w, RunOps(h, turns, orders));
    forall to: nat | TurnsForward(turns, to) ensures ClockForward(RunOps(h, turns, orders), 0, to) {
      TurnsKeepTime(h, turns, orders, to);
    }
    var k := IntervalStart(h, turns, orders);
    if turns != [] {
      LastRests(h, turns, orders);
    }
  }

  lemma {:induction false} LastRests(h: Head, turns: seq<Turn>, orders: seq<seq<string>>)
    requires Valid(h.w) && Walks(h, turns, orders) && turns != []
    ensures var n := |turns| - 1;
            Rested(RunTurns(h, turns[..n], orders[..n]), turns[n], RunTurns(h, turns, orders))
  {
    var n := |turns| - 1;
    TurnsAreSteps(h, turns[..n], orders[..n]);
    RunKeepsValid(h.w, RunOps(h, turns[..n], orders[..n]));
    TurnRests(RunTurns(h, turns[..n], orders[..n]), turns[n], orders[n]);
  }

  lemma {:induction false} PushFirst(w: Worker, turn: Turn, w': Worker)
    requires !turn.first.HungUp?
    requires w' == if turn.first.Arrived? then Push(w, turn.first.event) else w
    ensures PushAll(w', turn.drained) == PushAll(w, EventsOf(turn))
  {
    if turn.first.Arrived? {
      PushOneFirst(w, turn.first.event, turn.drained);
    }
  }

  lemma {:induction false} PushOneFirst(w: Worker, e: DbEvent, es: seq<DbEvent>)
    ensures PushAll(Push(w, e), es) == PushAll(w, [e] + es)
    decreases |es|
  {
    if es == [] {
      assert [e] + es == [e] && [e][..0] == [];
    } else {
      var n := |es| - 1;
      PushOneFirst(w, e, es[..n]);
      assert ([e] + es)[..n + 1] == [e] + es[..n];
    }
  }
}
