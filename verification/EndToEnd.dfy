/** From the shares answered on the wire to the rows of the database. */
module EndToEnd {
  import opened Bytes
  import opened Tables
  import opened Connection
  import opened ConnectionRuns
  import opened ConnectionTheorems
  import opened ShareTheorems
  import opened PayoutTheorems
  import Database
  import DatabaseRuns
  import Worker = DatabaseWorker

  /** A connection that records its shares, and what happens to it. */
  datatype Session = Session(start: System, events: seq<SysEvent>)

  predicate Ran(env: Env, x: Session) {
    Initial(x.start) && x.start.conn.recording && SysAllowed(env, x.start, x.events)
  }

  function Final(env: Env, x: Session): Conn
    requires Ran(env, x)
  {
    SysRun(env, x.start, x.events).conn
  }

  /** What the sessions send to the worker, one session after the other. */
  function AllSent(env: Env, xs: seq<Session>): seq<DbEvent>
    requires forall x :: x in xs ==> Ran(env, x)
  {
    if xs == [] then [] else AllSent(env, xs[..|xs| - 1]) + Final(env, xs[|xs| - 1]).db
  }

  /** How many of the successes are for a channel of address `a`. */
  function SuccessesFor(s: Conn, cs: seq<u32>, a: string): nat {
    if cs == [] then 0
    else
      var c := cs[|cs| - 1];
      SuccessesFor(s, cs[..|cs| - 1], a) + (if c in s.channels && s.channels[c].address == a then 1 else 0)
  }

  function AllSuccesses(env: Env, xs: seq<Session>, a: string): nat
    requires forall x :: x in xs ==> Ran(env, x)
  {
    if xs == [] then 0
    else
      var s := Final(env, xs[|xs| - 1]);
      AllSuccesses(env, xs[..|xs| - 1], a) + SuccessesFor(s, Successes(s.out), a)
  }

  // ── Counting ──────────────────────────────────────────────────────────────

  /** Each share is for the channel named at its place. */
  predicate Matched(s: Conn, ss: seq<Share>, cs: seq<u32>) {
    |ss| == |cs| && forall i :: 0 <= i < |ss| ==> cs[i] in s.channels && s.channels[cs[i]].address == ss[i].address
  }

  lemma {:induction false} MatchedCount(s: Conn, ss: seq<Share>, cs: seq<u32>, a: string)
    requires Matched(s, ss, cs)
    ensures Count(ss, a) == SuccessesFor(s, cs, a)
    decreases |ss|
  {
    if ss != [] {
      var n := |ss| - 1;
      assert cs[n] in s.channels && s.channels[cs[n]].address == ss[n].address;
      MatchedCount(s, ss[..n], cs[..n], a);
    }
  }

  lemma {:induction false} SessionCount(env: Env, x: Session, a: string)
    requires Ran(env, x)
    ensures var s := Final(env, x);
            Count(SharesOf(s.db), a) == SuccessesFor(s, Successes(s.out), a)
  {
    StoredShares(env, x.start, x.events);
    InitialGood(env, x.start, false);
    SettingsFixed(env, x.start, x.events);
    var s := Final(env, x);
    var ss, cs := SharesOf(s.db), Successes(s.out);
    forall i | 0 <= i < |ss| ensures cs[i] in s.channels && s.channels[cs[i]].address == ss[i].address {
      assert StoredOk(s, ss[i], cs[i]);
    }
    MatchedCount(s, ss, cs, a);
  }

  lemma {:induction false} SentCount(env: Env, xs: seq<Session>, a: string)
    requires forall x :: x in xs ==> Ran(env, x)
    ensures Count(SharesOf(AllSent(env, xs)), a) == AllSuccesses(env, xs, a)
    decreases |xs|
  {
    if xs != [] {
      var init, x := xs[..|xs| - 1], xs[|xs| - 1];
      SentCount(env, init, a);
      SessionCount(env, x, a);
      KindsConcat(AllSent(env, init), Final(env, x).db);
      CountTotalConcat(SharesOf(AllSent(env, init)), SharesOf(Final(env, x).db), a);
    }
  }

  function ShareCount(es: seq<DbEvent>, a: string): nat { Count(SharesOf(es), a) }

  lemma {:induction false} ShareCountConcat(es: seq<DbEvent>, fs: seq<DbEvent>, a: string)
    ensures ShareCount(es + fs, a) == ShareCount(es, a) + ShareCount(fs, a)
  {
    KindsConcat(es, fs);
    CountTotalConcat(SharesOf(es), SharesOf(fs), a);
  }

  lemma {:induction false} TakeOut(fs: seq<DbEvent>, e: DbEvent) returns (head: seq<DbEvent>, tail: seq<DbEvent>)
    requires e in fs
    ensures fs == head + [e] + tail && multiset(head + tail) == multiset(fs) - multiset{e}
  {
    var i :| 0 <= i < |fs| && fs[i] == e;
    head, tail := fs[..i], fs[i + 1..];
    assert fs == head + [e] + tail;
  }

  /** The order in which events arrive does not matter to the count. */
  lemma {:induction false} AnyOrderCounts(es: seq<DbEvent>, fs: seq<DbEvent>, a: string)
    requires multiset(es) == multiset(fs)
    ensures ShareCount(es, a) == ShareCount(fs, a)
    decreases |es|
  {
    if es == [] {
      assert |multiset(fs)| == 0 && fs == [];
    } else {
      var init, e := es[..|es| - 1], es[|es| - 1];
      assert es == init + [e];
      assert e in multiset(fs);
      var head, tail := TakeOut(fs, e);
      AnyOrderCounts(init, head + tail, a);
      ShareCountConcat(init, [e], a);
      ShareCountConcat(head, tail, a);
      ShareCountConcat(head, [e], a);
      ShareCountConcat(head + [e], tail, a);
    }
  }

  // ── The rows ──────────────────────────────────────────────────────────────

  function SharesCount(t: Tables, a: string): nat {
    if a in t.epoch then t.epoch[a].count else 0
  }

  lemma {:induction false} RowsCount(h: Worker.Head, turns: seq<Worker.Turn>, orders: seq<seq<string>>, a: string)
    requires h.w == Database.START && Worker.Walks(h, turns, orders)
    requires Worker.RunTurns(h, turns, orders).w.pending == []
    ensures SharesCount(Worker.RunTurns(h, turns, orders).w.tables, a) == ShareCount(Worker.AllEvents(turns), a)
  {
    Database.StartValid();
    Worker.TurnsAreSteps(h, turns, orders);
    DatabaseRuns.RunKeepsValid(h.w, Worker.RunOps(h, turns, orders));
    var w := Worker.RunTurns(h, turns, orders).w;
    assert w.past + [] == w.past && [] + [] + Worker.AllEvents(turns) == Worker.AllEvents(turns);
    assert RowHolds(w.tables, SharesOf(w.past), a);
  }

  /** However the events of any number of recording connections are interleaved on their way
      to the worker, and however its loop batches, delays and retries them: when none is
      left pending, `shares_count` of a miner is the number of successes the pool answered
      on channels of that address. */
  lemma {:induction false} CountsAreSuccesses(env: Env, xs: seq<Session>, instant: nat, turns: seq<Worker.Turn>,
      orders: seq<seq<string>>, a: string)
    requires forall x :: x in xs ==> Ran(env, x)
    requires Worker.Walks(Worker.Head(Database.START, instant), turns, orders)
    requires multiset(Worker.AllEvents(turns)) == multiset(AllSent(env, xs))
    requires Worker.RunTurns(Worker.Head(Database.START, instant), turns, orders).w.pending == []
    ensures SharesCount(Worker.RunTurns(Worker.Head(Database.START, instant), turns, orders).w.tables, a)
            == AllSuccesses(env, xs, a)
  {
    RowsCount(Worker.Head(Database.START, instant), turns, orders, a);
    AnyOrderCounts(Worker.AllEvents(turns), AllSent(env, xs), a);
    SentCount(env, xs, a);
  }
}
