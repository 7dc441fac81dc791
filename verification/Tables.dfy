/** db.rs: the tables, the SQL statements on them, and what they should hold after a
    history of events. A difficulty is an exact real. */
module Tables {
  import opened Bytes

  datatype Share = Share(address: string, difficulty: real, hash: Hash, timestamp: int)
  datatype Miner = Miner(address: string, timestamp: int)
  datatype DbEvent = ShareEvent(share: Share) | MinerConnected(miner: Miner)

  /** `best` is None where the column is NULL. */
  datatype EpochRow = EpochRow(count: nat, active: nat, total: real, best: Option<Hash>)
  datatype MinuteRow = MinuteRow(address: string, minute: int, sum: real)
  datatype Tables = Tables(miners: map<string, int>, shares: seq<Share>, epoch: map<string, EpochRow>,
                           minutes: seq<MinuteRow>)

  const EMPTY := Tables(map[], [], map[], [])

  // ── Statements ────────────────────────────────────────────────────────────

  function InsertMiner(t: Tables, m: Miner): Tables {
    if m.address in t.miners then t else t.(miners := t.miners[m.address := m.timestamp])
  }

  function InsertShare(t: Tables, s: Share): Tables {
    t.(shares := t.shares + [s])
  }

  function BetterHash(best: Option<Hash>, hash: Hash): Option<Hash> {
    match best
    case None => Some(hash)
    case Some(b) => if LexLess(hash, b) then Some(hash) else best
  }

  function UpsertShareStats(t: Tables, s: Share): Tables {
    var row := if s.address in t.epoch then
                 var r := t.epoch[s.address];
                 r.(count := r.count + 1, total := r.total + s.difficulty, best := BetterHash(r.best, s.hash))
               else EpochRow(1, 0, s.difficulty, Some(s.hash));
    t.(epoch := t.epoch[s.address := row])
  }

  function AddMinute(rows: seq<MinuteRow>, address: string, minute: int, sum: real): seq<MinuteRow> {
    if rows == [] then [MinuteRow(address, minute, sum)]
    else if rows[0].address == address && rows[0].minute == minute then [rows[0].(sum := rows[0].sum + sum)] + rows[1..]
    else [rows[0]] + AddMinute(rows[1..], address, minute, sum)
  }

  function UpsertActive(t: Tables, address: string): Tables {
    var row := if address in t.epoch then t.epoch[address].(active := t.epoch[address].active + 1)
               else EpochRow(0, 1, 0.0, None);
    t.(epoch := t.epoch[address := row])
  }

  function Prune(rows: seq<MinuteRow>, cutoff: int): seq<MinuteRow> {
    if rows == [] then []
    else if rows[0].minute < cutoff then Prune(rows[1..], cutoff)
    else [rows[0]] + Prune(rows[1..], cutoff)
  }

  // ── Batches of statements ─────────────────────────────────────────────────

  function ApplyMiners(t: Tables, ms: seq<Miner>): Tables {
    if ms == [] then t else InsertMiner(ApplyMiners(t, ms[..|ms| - 1]), ms[|ms| - 1])
  }

  function ApplyShare(t: Tables, s: Share): Tables {
    UpsertShareStats(InsertShare(t, s), s)
  }

  function ApplyShares(t: Tables, ss: seq<Share>): Tables {
    if ss == [] then t else ApplyShare(ApplyShares(t, ss[..|ss| - 1]), ss[|ss| - 1])
  }

  function ApplyWindow(t: Tables, address: string, minute: int, sum: real): Tables {
    UpsertActive(t.(minutes := AddMinute(t.minutes, address, minute, sum)), address)
  }

  function ApplyWindows(t: Tables, windows: map<string, real>, order: seq<string>, minute: int): Tables
    requires forall a :: a in order ==> a in windows
  {
    if order == [] then t
    else
      var n := |order| - 1;
      ApplyWindow(ApplyWindows(t, windows, order[..n], minute), order[n], minute, windows[order[n]])
  }

  // ── What the events say ───────────────────────────────────────────────────

  function SharesOf(es: seq<DbEvent>): seq<Share> {
    if es == [] then []
    else SharesOf(es[..|es| - 1]) + (match es[|es| - 1] case ShareEvent(s) => [s] case MinerConnected(_) => [])
  }

  function MinersOf(es: seq<DbEvent>): seq<Miner> {
    if es == [] then []
    else MinersOf(es[..|es| - 1]) + (match es[|es| - 1] case ShareEvent(_) => [] case MinerConnected(m) => [m])
  }

  lemma {:induction false} KindsConcat(es: seq<DbEvent>, fs: seq<DbEvent>)
    ensures SharesOf(es + fs) == SharesOf(es) + SharesOf(fs)
    ensures MinersOf(es + fs) == MinersOf(es) + MinersOf(fs)
    decreases |fs|
  {
    if fs == [] {
      assert es + fs == es;
    } else {
      var n, all := |fs| - 1, es + fs;
      KindsConcat(es, fs[..n]);
      assert all[..|all| - 1] == es + fs[..n] && all[|all| - 1] == fs[n];
      Associative(SharesOf(es), SharesOf(fs[..n]), if fs[n].ShareEvent? then [fs[n].share] else []);
      Associative(MinersOf(es), MinersOf(fs[..n]), if fs[n].MinerConnected? then [fs[n].miner] else []);
    }
  }

  /** The time of the first connection received, not the least time. */
  function FirstSeen(ms: seq<Miner>, a: string): Option<int> {
    if ms == [] then None
    else
      var earlier, last := FirstSeen(ms[..|ms| - 1], a), ms[|ms| - 1];
      if earlier.Some? then earlier else if last.address == a then Some(last.timestamp) else None
  }

  lemma {:induction false} FirstSeenIsFirst(ms: seq<Miner>, a: string, time: int)
    ensures FirstSeen(ms, a) == Some(time)
            <==> exists i :: 0 <= i < |ms| && ms[i] == Miner(a, time) && forall k :: 0 <= k < i ==> ms[k].address != a
    ensures FirstSeen(ms, a) == None <==> forall m :: m in ms ==> m.address != a
  {
    if ms != [] {
      var n := |ms| - 1;
      assert ms == ms[..n] + [ms[n]];
      FirstSeenIsFirst(ms[..n], a, time);
    }
  }

  function Count(ss: seq<Share>, a: string): nat {
    if ss == [] then 0 else Count(ss[..|ss| - 1], a) + (if ss[|ss| - 1].address == a then 1 else 0)
  }

  function Total(ss: seq<Share>, a: string): real {
    if ss == [] then 0.0
    else
      var s := ss[|ss| - 1];
      Total(ss[..|ss| - 1], a) + (if s.address == a then s.difficulty else 0.0)
  }

  lemma {:induction false} CountTotalConcat(ss: seq<Share>, us: seq<Share>, a: string)
    ensures Count(ss + us, a) == Count(ss, a) + Count(us, a)
    ensures Total(ss + us, a) == Total(ss, a) + Total(us, a)
    decreases |us|
  {
    if us == [] {
      assert ss + us == ss;
    } else {
      var n := |us| - 1;
      CountTotalConcat(ss, us[..n], a);
      assert (ss + us)[..|ss + us| - 1] == ss + us[..n];
    }
  }

  /** `h` is a hash of one of `a`'s shares and numerically the least of them. */
  predicate IsBest(ss: seq<Share>, a: string, h: Hash) {
    && (exists s :: s in ss && s.address == a && s.hash == h)
    && (forall s :: s in ss && s.address == a ==> Value(h) <= Value(s.hash))
  }

  // ── Tables that hold a history ────────────────────────────────────────────

  ghost predicate MinersHold(t: Tables, ms: seq<Miner>) {
    forall a: string :: FirstSeen(ms, a) == if a in t.miners then Some(t.miners[a]) else None
  }

  /** The row of one address: present exactly if it has a share, and then never NULL. */
  predicate RowHolds(t: Tables, ss: seq<Share>, a: string) {
    && (a in t.epoch <==> Count(ss, a) > 0)
    && (a in t.epoch ==>
          var r := t.epoch[a];
          r.count == Count(ss, a) && r.total == Total(ss, a) && r.best.Some? && IsBest(ss, a, r.best.value))
  }

  ghost predicate SharesHold(t: Tables, ss: seq<Share>) {
    t.shares == ss && forall a: string :: RowHolds(t, ss, a)
  }

  lemma {:induction false} ApplyMinersHold(t: Tables, past: seq<Miner>, ms: seq<Miner>)
    requires MinersHold(t, past)
    ensures MinersHold(ApplyMiners(t, ms), past + ms)
    ensures ApplyMiners(t, ms) == t.(miners := ApplyMiners(t, ms).miners)
    decreases |ms|
  {
    if ms == [] {
      assert past + ms == past;
    } else {
      var n := |ms| - 1;
      ApplyMinersHold(t, past, ms[..n]);
      assert (past + ms)[..|past + ms| - 1] == past + ms[..n];
    }
  }

  lemma {:induction false} NoShareNoHash(ss: seq<Share>, a: string)
    ensures Count(ss, a) == 0 ==> Total(ss, a) == 0.0 && forall s :: s in ss ==> s.address != a
    decreases |ss|
  {
    if ss != [] {
      var n := |ss| - 1;
      NoShareNoHash(ss[..n], a);
      assert ss == ss[..n] + [ss[n]];
    }
  }

  lemma {:induction false} BestOfOneMore(ss: seq<Share>, s: Share, best: Option<Hash>)
    requires Count(ss, s.address) > 0 ==> best.Some? && IsBest(ss, s.address, best.value)
    requires Count(ss, s.address) == 0 ==> best == None
    ensures BetterHash(best, s.hash).Some? && IsBest(ss + [s], s.address, BetterHash(best, s.hash).value)
  {
    NoShareNoHash(ss, s.address);
    if best.Some? {
      LexIsNumeric(s.hash, best.value);
    }
  }

  /** The upsert of one share keeps every row right. */
  lemma {:induction false} ApplyShareHolds(t: Tables, ss: seq<Share>, s: Share)
    requires SharesHold(t, ss)
    ensures SharesHold(ApplyShare(t, s), ss + [s])
  {
    var t' := ApplyShare(t, s);
    var us := ss + [s];
    assert us[..|us| - 1] == ss && us[|us| - 1] == s;
    forall a: string ensures RowHolds(t', us, a) {
      assert RowHolds(t, ss, a);
      if a == s.address {
        NoShareNoHash(ss, a);
        var best := if a in t.epoch then t.epoch[a].best else None;
        BestOfOneMore(ss, s, best);
        assert t'.epoch[a].best == BetterHash(best, s.hash);
      } else if a in t.epoch {
        OtherBest(ss, s, a, t.epoch[a].best.value);
      }
    }
  }

  lemma {:induction false} OtherBest(ss: seq<Share>, s: Share, a: string, h: Hash)
    requires a != s.address && IsBest(ss, a, h)
    ensures IsBest(ss + [s], a, h)
  {
    var w :| w in ss && w.address == a && w.hash == h;
    assert w in ss + [s];
  }

  lemma {:induction false} ApplySharesHold(t: Tables, past: seq<Share>, ss: seq<Share>)
    requires SharesHold(t, past)
    ensures SharesHold(ApplyShares(t, ss), past + ss)
    ensures ApplyShares(t, ss).miners == t.miners && ApplyShares(t, ss).minutes == t.minutes
    ensures forall a :: Active(ApplyShares(t, ss), a) == Active(t, a)
    decreases |ss|
  {
    if ss == [] {
      assert past + ss == past;
    } else {
      var n := |ss| - 1;
      ApplySharesHold(t, past, ss[..n]);
      ApplyShareHolds(ApplyShares(t, ss[..n]), past + ss[..n], ss[n]);
      assert past + ss == past + ss[..n] + [ss[n]];
    }
  }

  // ── Minutes ───────────────────────────────────────────────────────────────

  function Active(t: Tables, a: string): nat {
    if a in t.epoch then t.epoch[a].active else 0
  }

  /** `who` and `since` are the WHERE clauses of the hashrate queries. */
  predicate Selected(r: MinuteRow, who: Option<string>, since: Option<int>) {
    (who.Some? ==> r.address == who.value) && (since.Some? ==> r.minute >= since.value)
  }

  function SumRows(rows: seq<MinuteRow>, who: Option<string>, since: Option<int>): real {
    if rows == [] then 0.0
    else (if Selected(rows[0], who, since) then rows[0].sum else 0.0) + SumRows(rows[1..], who, since)
  }

  lemma {:induction false} SumOfOneMore(rows: seq<MinuteRow>, r: MinuteRow, who: Option<string>, since: Option<int>)
    ensures SumRows(rows + [r], who, since)
            == SumRows(rows, who, since)
               + (if (who == None || who == Some(r.address)) && (since == None || since.value <= r.minute)
                  then r.sum else 0.0)
    ensures SumRows([], who, since) == 0.0
  {
    if rows == [] {
      assert [r][1..] == [] && rows + [r] == [r];
    } else {
      assert (rows + [r])[1..] == rows[1..] + [r];
      SumOfOneMore(rows[1..], r, who, since);
    }
  }

  function CountRows(rows: seq<MinuteRow>, a: string): nat {
    if rows == [] then 0 else (if rows[0].address == a then 1 else 0) + CountRows(rows[1..], a)
  }

  predicate HasKey(rows: seq<MinuteRow>, a: string, minute: int) {
    exists r :: r in rows && r.address == a && r.minute == minute
  }

  /** PRIMARY KEY (miner_address, minute_ts) */
  predicate UniqueKeys(rows: seq<MinuteRow>) {
    forall i, j :: 0 <= i < j < |rows| ==> rows[i].address != rows[j].address || rows[i].minute != rows[j].minute
  }

  lemma {:induction false} AddMinuteSums(rows: seq<MinuteRow>, b: string, minute: int, d: real, a: string)
    ensures SumRows(AddMinute(rows, b, minute, d), Some(a), None)
            == SumRows(rows, Some(a), None) + (if a == b then d else 0.0)
    ensures CountRows(AddMinute(rows, b, minute, d), a) <= CountRows(rows, a) + (if a == b then 1 else 0)
  {
    if rows != [] && !(rows[0].address == b && rows[0].minute == minute) {
      AddMinuteSums(rows[1..], b, minute, d, a);
    }
  }

  lemma {:induction false} AddMinuteKeys(rows: seq<MinuteRow>, b: string, minute: int, d: real)
    requires UniqueKeys(rows)
    ensures UniqueKeys(AddMinute(rows, b, minute, d))
    ensures forall r :: r in AddMinute(rows, b, minute, d) ==>
            HasKey(rows, r.address, r.minute) || (r.address == b && r.minute == minute)
  {
    if rows != [] {
      var head, tail := rows[0], rows[1..];
      assert rows == [head] + tail;
      if head.address == b && head.minute == minute {
        forall r | r in AddMinute(rows, b, minute, d) ensures HasKey(rows, r.address, r.minute) {
          assert r == head.(sum := head.sum + d) || r in tail;
          assert head in rows;
        }
      } else {
        AddMinuteKeys(tail, b, minute, d);
        var more := AddMinute(tail, b, minute, d);
        forall r | r in more ensures HasKey(rows, r.address, r.minute) || (r.address == b && r.minute == minute) {
          if HasKey(tail, r.address, r.minute) {
            var q :| q in tail && q.address == r.address && q.minute == r.minute;
            assert q in rows;
          }
        }
        assert HasKey(rows, head.address, head.minute);
        forall j | 0 <= j < |more| ensures head.address != more[j].address || head.minute != more[j].minute {
          assert more[j] in more;
          if HasKey(tail, more[j].address, more[j].minute) {
            var k :| 0 <= k < |tail| && tail[k].address == more[j].address && tail[k].minute == more[j].minute;
            assert rows[k + 1] == tail[k];
          }
        }
      }
    }
  }

  lemma {:induction false} PruneKeeps(rows: seq<MinuteRow>, cutoff: int)
    ensures forall r :: r in Prune(rows, cutoff) <==> r in rows && r.minute >= cutoff
    ensures UniqueKeys(rows) ==> UniqueKeys(Prune(rows, cutoff))
    ensures forall a :: CountRows(Prune(rows, cutoff), a) <= CountRows(rows, a)
  {
    if rows != [] {
      PruneKeeps(rows[1..], cutoff);
      assert rows == [rows[0]] + rows[1..];
      if UniqueKeys(rows) {
        var rest := Prune(rows[1..], cutoff);
        forall j | 0 <= j < |rest| ensures rows[0].address != rest[j].address || rows[0].minute != rest[j].minute {
          assert rest[j] in rest && rest[j] in rows[1..];
          var k :| 0 <= k < |rows[1..]| && rows[1..][k] == rest[j];
          assert rows[k + 1] == rest[j];
        }
      }
    }
  }

  lemma {:induction false} PruneOfAdd(rows: seq<MinuteRow>, b: string, minute: int, d: real, cutoff: int)
    requires minute >= cutoff
    ensures Prune(AddMinute(rows, b, minute, d), cutoff) == AddMinute(Prune(rows, cutoff), b, minute, d)
  {
    if rows == [] {
      assert Prune([MinuteRow(b, minute, d)], cutoff) == [MinuteRow(b, minute, d)] + Prune([], cutoff);
    } else {
      var head, tail := rows[0], rows[1..];
      if head.address == b && head.minute == minute {
        var row := head.(sum := head.sum + d);
        assert ([row] + tail)[1..] == tail;
        assert ([head] + Prune(tail, cutoff))[1..] == Prune(tail, cutoff);
      } else {
        PruneOfAdd(tail, b, minute, d, cutoff);
        assert ([head] + AddMinute(tail, b, minute, d))[1..] == AddMinute(tail, b, minute, d);
        assert ([head] + Prune(tail, cutoff))[1..] == Prune(tail, cutoff);
      }
    }
  }

  lemma {:induction false} PruneTwice(rows: seq<MinuteRow>, c: int, d: int)
    requires c <= d
    ensures Prune(Prune(rows, c), d) == Prune(rows, d)
  {
    if rows != [] {
      PruneTwice(rows[1..], c, d);
      assert ([rows[0]] + Prune(rows[1..], c))[1..] == Prune(rows[1..], c);
    }
  }

  /** A query that starts at or after the cutoff does not see pruning. */
  lemma {:induction false} PruneUnseen(rows: seq<MinuteRow>, cutoff: int, who: Option<string>, since: int)
    requires since >= cutoff
    ensures SumRows(Prune(rows, cutoff), who, Some(since)) == SumRows(rows, who, Some(since))
  {
    if rows != [] {
      PruneUnseen(rows[1..], cutoff, who, since);
      assert ([rows[0]] + Prune(rows[1..], cutoff))[1..] == Prune(rows[1..], cutoff);
    }
  }

  /** The rows a prune removes. */
  function Pruned(rows: seq<MinuteRow>, cutoff: int): seq<MinuteRow> {
    if rows == [] then []
    else if rows[0].minute < cutoff then [rows[0]] + Pruned(rows[1..], cutoff)
    else Pruned(rows[1..], cutoff)
  }

  lemma {:induction false} PruneSplitsSum(rows: seq<MinuteRow>, cutoff: int, who: Option<string>)
    ensures SumRows(rows, who, None)
            == SumRows(Prune(rows, cutoff), who, None) + SumRows(Pruned(rows, cutoff), who, None)
  {
    if rows != [] {
      PruneSplitsSum(rows[1..], cutoff, who);
      assert ([rows[0]] + Prune(rows[1..], cutoff))[1..] == Prune(rows[1..], cutoff);
      assert ([rows[0]] + Pruned(rows[1..], cutoff))[1..] == Pruned(rows[1..], cutoff);
    }
  }

  // ── A sum over everyone is the sum of everyone's sums ─────────────────────

  predicate Distinct(xs: seq<string>) {
    forall i, j :: 0 <= i < j < |xs| ==> xs[i] != xs[j]
  }

  function SumOverAddresses(rows: seq<MinuteRow>, addresses: seq<string>, since: Option<int>): real {
    if addresses == [] then 0.0
    else SumRows(rows, Some(addresses[0]), since) + SumOverAddresses(rows, addresses[1..], since)
  }

  lemma {:induction false} OneRowMore(rows: seq<MinuteRow>, addresses: seq<string>, since: Option<int>)
    requires rows != [] && Distinct(addresses)
    ensures SumOverAddresses(rows, addresses, since) == SumOverAddresses(rows[1..], addresses, since)
            + (if rows[0].address in addresses && Selected(rows[0], None, since) then rows[0].sum else 0.0)
    decreases |addresses|
  {
    if addresses != [] {
      OneRowMore(rows, addresses[1..], since);
      assert addresses == [addresses[0]] + addresses[1..];
      if rows[0].address == addresses[0] {
        assert addresses[0] !in addresses[1..];
      }
    }
  }

  lemma {:induction false} EveryoneIsTheSum(rows: seq<MinuteRow>, addresses: seq<string>, since: Option<int>)
    requires Distinct(addresses) && forall r :: r in rows ==> r.address in addresses
    ensures SumRows(rows, None, since) == SumOverAddresses(rows, addresses, since)
  {
    if rows == [] {
      NoRows(addresses, since);
    } else {
      assert rows[0] in rows;
      EveryoneIsTheSum(rows[1..], addresses, since);
      OneRowMore(rows, addresses, since);
    }
  }

  lemma {:induction false} NoRows(addresses: seq<string>, since: Option<int>)
    ensures SumOverAddresses([], addresses, since) == 0.0
  {
    if addresses != [] {
      NoRows(addresses[1..], since);
    }
  }
}
