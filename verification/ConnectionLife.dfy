/** When a connection goes on, how far a broadcast gets, and which miners are recorded. */
module ConnectionLife {
  import opened Bytes
  import opened Targets
  import opened Transactions
  import opened NodeTemplate
  import opened Coinbase
  import opened Tables
  import opened Connection
  import opened ConnectionRuns
  import opened ConnectionTheorems
  import opened ShareTheorems

  // ── When a job can be built ───────────────────────────────────────────────

  /** The length of the second half: sequence, count, the miner's output, the node's
      outputs, the witness if there are any, and locktime. */
  function HalfBytes(script: nat, outputs: nat, count: nat): nat {
    4 + LengthBytes(1 + count) + (8 + LengthBytes(script) + script) + outputs + (if count > 0 then 34 else 0) + 4
  }

  lemma {:induction false} PrefixFits(t: Template, segwit: bool)
    requires |t.scriptPrefix| <= 255
    ensures |Prefix(t, segwit)| <= 65535
  {
    PrefixBytes(t, segwit);
  }

  lemma {:induction false} SuffixFits(t: Template, script: Bytes)
    requires |script| <= 65535
    ensures |Suffix(t, script, t.outputsCount > 0)| == HalfBytes(|script|, |t.outputs|, t.outputsCount)
  {
    SuffixBytes(t, script, t.outputsCount > 0);
    VarintLayout(1 + t.outputsCount);
    VarintLayout(|script|);
  }

  /** For every template of the node a job is built exactly if the address decodes and the
      second half fits its message: neither the path nor the first half is ever too long. */
  lemma {:induction false} JobExactlyWhen(env: Env, address: string, jobId: u32, i: Issue)
    requires Genuine(i)
    ensures BuildJob(env, address, jobId, i.template).Some? <==>
              var script := env.scriptOf(address);
              script.Some? && HalfBytes(|script.value|, |i.template.outputs|, i.template.outputsCount) <= 65535
  {
    if env.scriptOf(address).Some? {
      var script := env.scriptOf(address).value;
      PrefixFits(i.template, i.template.outputsCount > 0);
      if |script| <= 65535 {
        SuffixFits(i.template, script);
      }
    }
  }

  // ── When a block is issued ────────────────────────────────────────────────

  /** The node loop issues a new block exactly while it is alive, ids are left, and there is
      a template of it; the connection sees that at once. Else the loop ends for good. */
  lemma {:induction false} BlockIsIssued(env: Env, s: System, s': System, e: SysEvent)
    requires SysEnabled(s, e) && e.NewBlock? && s' == SysStep(env, s, e)
    ensures var cb := e.coinbase;
            var issues := && s.node.alive && s.node.nextId < 0xffff_ffff_ffff_ffff
                          && SumValues(cb.outputs) < 0x1_0000_0000_0000_0000
                          && cb.inputs != [] && |cb.inputs[0].script| <= 255 && ZeroBytes(cb.outputs) <= 65535
                          && |e.path| <= 255 && forall h :: h in e.path ==> |h| == 32;
            if issues then
              && s'.node.alive && s'.node.nextId == s.node.nextId + 1 && |s'.node.issued| == |s.node.issued| + 1
              && var i := s'.node.issued[|s.node.issued|];
                 && i == Issue(i.template, e.header, cb, e.path) && i.template.templateId == s.node.nextId
                 && s'.conn == s.conn.(latest := i.template, seen := s.conn.seen + [i.template], unseen := true)
            else s' == s.(node := s.node.(alive := false))
  {
    if s.node.alive && s.node.nextId < U64_MAX {
      TemplateExactlyWhen(s.node.nextId, e.header, e.coinbase, e.path);
    }
    if Fetched(s, e).Ok? {
      var i := NewBlockIssues(env, s, e);
    }
  }

  // ── When a connection goes on ─────────────────────────────────────────────

  /** An opening goes on if ids are left, the hashrate has a target, all three writes succeed
      and the first job is built. */
  predicate OpensWell(env: Env, s: Conn, user: string, h: Hashrate, budget: nat) {
    && s.nextChannel < U32_MAX && s.nextJob < U32_MAX && (h == PosInf ==> !env.checked) && budget >= 3
    && BuildJob(env, MinerAddress(env, user, s.poolAddress), s.nextJob, s.latest).Some?
  }

  /** What a live connection survives. */
  predicate GoesOn(env: Env, s: Conn, e: Event) {
    match e
    case Notified(_) => true
    case HungUp => false
    case Changed(_, _) => s.nextJob < U32_MAX
    case Arrived(f, budget, _) =>
      match f
      case HandShake => false
      case NoHeader => false
      case MalformedOpen => false
      case MalformedSubmit => false
      case OpenChannel(_, user, h) => OpensWell(env, s, user, h, budget)
      case SubmitShares(share) => budget > 0 || share.channelId !in s.channels
      case _ => true
  }

  lemma {:induction false} FirstJobGoesOn(s: Conn, ch: Channel, built: Option<Job>, budget: nat, clock: int)
    requires s.phase == Running
    ensures FirstJob(s, ch, built, budget, clock).phase == Running
            <==> s.nextJob < U32_MAX && built.Some? && budget >= 2
  {
  }

  lemma {:induction false} OpenForGoesOn(s: Conn, requestId: u32, address: string, target: Option<Hash>,
      built: Option<Job>, budget: nat, clock: int)
    requires s.phase == Running
    ensures OpenFor(s, requestId, address, target, built, budget, clock).phase == Running
            <==> s.nextChannel < U32_MAX && target.Some? && budget >= 3 && s.nextJob < U32_MAX && built.Some?
  {
    if s.nextChannel < U32_MAX && target.Some? && budget > 0 {
      var id := s.nextChannel;
      var ch := Channel(id, ChannelPrefix(id), address, None, target.value);
      FirstJobGoesOn(s.(nextChannel := id + 1, out := s.out + [OpenReply(requestId, ch)],
                        channels := s.channels[id := ch]),
                     ch, built, budget - 1, clock);
    }
  }

  lemma {:induction false} OpeningGoesOn(env: Env, s: Conn, requestId: u32, user: string, h: Hashrate, budget: nat,
      clock: int)
    requires s.phase == Running
    ensures Open(env, s, requestId, user, h, budget, clock).phase == Running <==> OpensWell(env, s, user, h, budget)
  {
    var address := MinerAddress(env, user, s.poolAddress);
    HashrateTargetMeaning(env.checked, h);
    OpenForGoesOn(s, requestId, address, ChannelTarget(env.checked, h, s.latest.nbits),
                  BuildJob(env, address, s.nextJob, s.latest), budget, clock);
  }

  lemma {:induction false} ShareGoesOn(env: Env, s: Conn, share: Submission, budget: nat)
    requires Good(Legal(env), s, false) && s.phase == Running
    ensures Submit(env, s, share, budget).phase == Running <==> budget > 0 || share.channelId !in s.channels
  {
    OtherShares(env, s, share, budget);
    if share.channelId in s.channels {
      var ch := s.channels[share.channelId];
      if ch.job.Some? && ch.job.value.jobId == share.jobId {
        var hash := ShareDecision(env, s, share, ch, ch.job.value, budget);
      }
    }
  }

  /** In every good state exactly these events end a live connection: hanging up, a frame
      that is malformed or no message, a counter at its end, an opening without a target or a
      job, and a failed write, except in a broadcast. A share of an unknown channel does not. */
  lemma {:induction false} GoesOnExactly(env: Env, s: Conn, e: Event)
    requires Good(Legal(env), s, false) && s.phase == Running && Enabled(s, e)
    ensures Step(env, s, e).phase == Running <==> GoesOn(env, s, e)
  {
    if e.Changed? {
      BroadcastKeepsPhase(env, s, e.order, e.budget);
    } else if e.Arrived? {
      match e.frame {
        case OpenChannel(requestId, user, h) => OpeningGoesOn(env, s, requestId, user, h, e.budget, e.clock);
        case SubmitShares(share) => ShareGoesOn(env, s, share, e.budget);
        case _ =>
      }
    }
  }

  lemma {:induction false} BroadcastKeepsPhase(env: Env, s: Conn, order: seq<u32>, budget: nat)
    requires s.phase == Running && IsWalk(order, s.channels)
    ensures Broadcast(env, s, order, budget).phase == Running <==> s.nextJob < U32_MAX
    ensures !Broadcast(env, s, order, budget).unseen
  {
    if s.nextJob < U32_MAX {
      var s1 := s.(unseen := false, nextJob := s.nextJob + 1);
      SendJobsAppend(Jobs(env, s.nextJob, s.latest), s1, order, budget);
    }
  }

  // ── How far a broadcast gets ──────────────────────────────────────────────

  /** The first `n` channels of the walk have the job, the others what they had. */
  predicate ServedUpTo(s: Conn, s': Conn, order: seq<u32>, n: nat, jobId: u32, templateId: u64)
    requires n <= |order|
  {
    && s'.channels.Keys == s.channels.Keys
    && (forall i :: 0 <= i < n ==> HasJob(s', order[i], jobId, templateId))
    && (forall c: u32 :: c in s.channels && c !in order[..n] ==> s'.channels[c] == s.channels[c])
  }

  /** Why the walk stops after `n` channels and `written` messages: it is over, the next job
      cannot be built, or a write to the last of the `n`, whose job is stored, failed. */
  predicate StopsAfter(build: Builder, s: Conn, order: seq<u32>, budget: nat, n: nat, written: nat)
    requires n <= |order|
  {
    || (n == |order| && written == 2 * n <= budget)
    || (n < |order| && written == 2 * n <= budget && !Builds(build, s, order[n]))
    || (n > 0 && written == budget && 2 * n - 2 <= budget < 2 * n)
  }

  lemma {:induction false} SendOneStores(build: Builder, s: Conn, s': Conn, c: u32, jobId: u32, templateId: u64,
      budget: nat)
    requires Builds(build, s, c) && AllSame(build, jobId, templateId)
    requires s' == SendOne(s, c, build(s.channels[c].address), budget).conn
    ensures SendOne(s, c, build(s.channels[c].address), budget).all <==> budget >= 2
    ensures HasJob(s', c, jobId, templateId) && s'.channels.Keys == s.channels.Keys
    ensures |s'.out| == |s.out| + (if budget >= 2 then 2 else budget)
    ensures forall d: u32 :: d in s.channels ==> s'.channels[d].address == s.channels[d].address
    ensures forall d: u32 :: d != c && d in s.channels ==> s'.channels[d] == s.channels[d]
  {
  }

  lemma {:induction false} SendJobsStop(build: Builder, s: Conn, s': Conn, order: seq<u32>, jobId: u32,
      templateId: u64, budget: nat) returns (n: nat)
    requires AllSame(build, jobId, templateId) && (forall i, k :: 0 <= i < k < |order| ==> order[i] != order[k])
    requires (forall c :: c in order ==> c in s.channels) && s' == SendJobs(build, s, order, budget)
    ensures n <= |order| && ServedUpTo(s, s', order, n, jobId, templateId)
    ensures |s'.out| >= |s.out| && StopsAfter(build, s, order, budget, n, |s'.out| - |s.out|)
    decreases order, 1
  {
    n := 0;
    if order != [] && Builds(build, s, order[0]) {
      var s1 := SendOne(s, order[0], build(s.channels[order[0]].address), budget).conn;
      SendOneStores(build, s, s1, order[0], jobId, templateId, budget);
      n := StopsAfterFirst(build, s, s1, s', order, jobId, templateId, budget);
    }
  }

  lemma {:induction false} StopsAfterFirst(build: Builder, s: Conn, s1: Conn, s': Conn, order: seq<u32>, jobId: u32,
      templateId: u64, budget: nat) returns (n: nat)
    requires AllSame(build, jobId, templateId) && (forall i, k :: 0 <= i < k < |order| ==> order[i] != order[k])
    requires order != [] && forall c :: c in order ==> c in s.channels
    requires HasJob(s1, order[0], jobId, templateId) && s1.channels.Keys == s.channels.Keys
    requires |s1.out| == |s.out| + (if budget >= 2 then 2 else budget)
    requires forall d: u32 :: d in s.channels ==> s1.channels[d].address == s.channels[d].address
    requires forall d: u32 :: d != order[0] && d in s.channels ==> s1.channels[d] == s.channels[d]
    requires s' == if budget >= 2 then SendJobs(build, s1, order[1..], budget - 2) else s1
    ensures n <= |order| && ServedUpTo(s, s', order, n, jobId, templateId)
    ensures |s'.out| >= |s.out| && StopsAfter(build, s, order, budget, n, |s'.out| - |s.out|)
    decreases order, 0
  {
    if budget >= 2 {
      var k := SendJobsStop(build, s1, s', order[1..], jobId, templateId, budget - 2);
      n := k + 1;
      ServedOneMore(s, s1, s', order, k, jobId, templateId);
      StopsOneLater(build, s, s1, order, budget, k, |s'.out| - |s1.out|);
    } else {
      n := 1;
      assert order[..1] == [order[0]];
    }
  }

  lemma {:induction false} StopsOneLater(build: Builder, s: Conn, s1: Conn, order: seq<u32>, budget: nat, k: nat,
      written: nat)
    requires k < |order| && budget >= 2 && StopsAfter(build, s1, order[1..], budget - 2, k, written)
    requires forall c :: c in order ==> c in s.channels
    requires s1.channels.Keys == s.channels.Keys
    requires forall d: u32 :: d in s.channels ==> s1.channels[d].address == s.channels[d].address
    ensures StopsAfter(build, s, order, budget, k + 1, written + 2)
  {
    if k + 1 < |order| {
      var d := order[k + 1];
      assert order[1..][k] == d && d in s.channels;
      assert Builds(build, s1, d) <==> Builds(build, s, d);
    }
  }

  lemma {:induction false} ServedOneMore(s: Conn, s1: Conn, s': Conn, order: seq<u32>, k: nat, jobId: u32,
      templateId: u64)
    requires k < |order| && (forall i, l :: 0 <= i < l < |order| ==> order[i] != order[l])
    requires order[0] in s.channels && HasJob(s1, order[0], jobId, templateId) && s1.channels.Keys == s.channels.Keys
    requires forall d: u32 :: d != order[0] && d in s.channels ==> s1.channels[d] == s.channels[d]
    requires ServedUpTo(s1, s', order[1..], k, jobId, templateId)
    ensures ServedUpTo(s, s', order, k + 1, jobId, templateId)
  {
    var rest := order[1..];
    assert order[..k + 1] == [order[0]] + rest[..k];
    assert order[0] !in rest[..k] by {
      forall i | 0 <= i < k ensures rest[..k][i] != order[0] {
        assert order[i + 1] != order[0];
      }
    }
    forall i | 0 <= i < k + 1 ensures HasJob(s', order[i], jobId, templateId) {
      if i > 0 {
        assert rest[i - 1] == order[i];
      }
    }
    forall c: u32 | c in s.channels && c !in order[..k + 1] ensures s'.channels[c] == s.channels[c] {
      assert c != order[0] && c !in rest[..k];
    }
  }

  /** A broadcast serves the channels in the order it walks them until it is through, a job
      cannot be built, or a write fails; the job of the channel whose write failed is stored
      all the same, and the connection goes on. */
  lemma {:induction false} BroadcastStops(env: Env, s: Conn, order: seq<u32>, budget: nat) returns (n: nat)
    requires IsWalk(order, s.channels) && s.phase == Running && s.nextJob < U32_MAX
    ensures var s' := Broadcast(env, s, order, budget);
            && n <= |order| && ServedUpTo(s, s', order, n, s.nextJob, s.latest.templateId)
            && |s'.out| >= |s.out|
            && StopsAfter(Jobs(env, s.nextJob, s.latest), s, order, budget, n, |s'.out| - |s.out|)
            && s'.phase == Running && s'.nextJob == s.nextJob + 1 && !s'.unseen
  {
    var s1 := s.(unseen := false, nextJob := s.nextJob + 1);
    var build := Jobs(env, s.nextJob, s.latest);
    var s' := Broadcast(env, s, order, budget);
    n := SendJobsStop(build, s1, s', order, s.nextJob, s.latest.templateId, budget);
    BroadcastKeepsPhase(env, s, order, budget);
    SendJobsKeepCounters(build, s1, order, budget);
    assert n < |order| ==> (Builds(build, s1, order[n]) <==> Builds(build, s, order[n]));
  }

  lemma {:induction false} SendJobsKeepCounters(build: Builder, s: Conn, order: seq<u32>, budget: nat)
    requires forall c :: c in order ==> c in s.channels
    ensures var s' := SendJobs(build, s, order, budget);
            s'.nextJob == s.nextJob && s'.nextChannel == s.nextChannel && s'.db == s.db
    decreases order
  {
    if order != [] {
      var sent := SendOne(s, order[0], build(s.channels[order[0]].address), budget);
      assert sent.conn == s.(channels := sent.conn.channels, out := sent.conn.out);
      if sent.all {
        SendJobsKeepCounters(build, sent.conn, order[1..], budget - 2);
      }
    }
  }

  // ── No more broadcasts than templates ─────────────────────────────────────

  function Broadcasts(es: seq<SysEvent>): nat {
    if es == [] then 0 else (if es[0].Other? && es[0].event.Changed? then 1 else 0) + Broadcasts(es[1..])
  }

  function Pending(s: Conn): nat { if s.unseen then 1 else 0 }

  /** Each template is broadcast at most once: with those still to come, no more broadcasts
      than templates seen and not yet taken note of. */
  lemma {:induction false} BroadcastsBounded(env: Env, s: System, es: seq<SysEvent>)
    requires SystemGood(env, s, false) && SysAllowed(env, s, es)
    ensures var s' := SysRun(env, s, es);
            Broadcasts(es) + Pending(s'.conn) <= |s'.conn.seen| - |s.conn.seen| + Pending(s.conn)
    decreases es
  {
    if es != [] {
      var e, s' := es[0], SysStep(env, s, es[0]);
      if e.Other? {
        StepEvolves(env, s.conn, s'.conn, e.event);
        if e.event.Changed? {
          BroadcastKeepsPhase(env, s.conn, e.event.order, e.event.budget);
        }
      }
      SystemStepKeepsGood(env, s, e, false);
      BroadcastsBounded(env, s', es[1..]);
    }
  }

  // ── Which miners are recorded ─────────────────────────────────────────────

  lemma {:induction false} OneMoreMiner(db: seq<DbEvent>, e: DbEvent)
    ensures MinersOf(db + [e]) == MinersOf(db) + (if e.MinerConnected? then [e.miner] else [])
  {
    assert (db + [e])[..|db|] == db;
  }

  /** Channels are opened one by one, and where the connection went on each was recorded. */
  predicate Recorded(s: Conn) {
    var ms := MinersOf(s.db);
    && |ms| <= s.nextChannel && (s.phase == AwaitingSetup ==> s.nextChannel == 0)
    && (s.phase == Running && s.recording ==> |ms| == s.nextChannel)
    && (!s.recording ==> ms == [])
    && forall i: u32 :: i < |ms| ==> i in s.channels && s.channels[i].address == ms[i].address
  }

  lemma {:induction false} GiveFirstRecords(s: Conn, s': Conn, ch: Channel, j: Job, budget: nat, clock: int)
    requires s.phase == Running && s' == GiveFirst(s, ch, j, budget, clock)
    ensures s'.nextChannel == s.nextChannel && s'.phase != AwaitingSetup
    ensures ch.channelId in s'.channels && s'.channels[ch.channelId].address == ch.address
    ensures MinersOf(s'.db)
            == MinersOf(s.db) + (if s'.phase == Running && s.recording then [Miner(ch.address, clock)] else [])
  {
    OneMoreMiner(s.db, MinerConnected(Miner(ch.address, clock)));
  }

  lemma {:induction false} FirstJobRecords(s: Conn, s': Conn, ch: Channel, built: Option<Job>, budget: nat, clock: int)
    requires s.phase == Running && s' == FirstJob(s, ch, built, budget, clock)
    requires ch.channelId in s.channels && s.channels[ch.channelId] == ch
    ensures s'.nextChannel == s.nextChannel && s'.phase != AwaitingSetup
    ensures ch.channelId in s'.channels && s'.channels[ch.channelId].address == ch.address
    ensures MinersOf(s'.db)
            == MinersOf(s.db) + (if s'.phase == Running && s.recording then [Miner(ch.address, clock)] else [])
  {
    if s.nextJob < U32_MAX && built.Some? {
      GiveFirstRecords(s.(nextJob := s.nextJob + 1), s', ch, built.value, budget, clock);
    }
  }

  lemma {:induction false} OpenWithRecords(s: Conn, s': Conn, requestId: u32, ch: Channel, built: Option<Job>,
      budget: nat, clock: int)
    requires s.phase == Running && s' == OpenWith(s, requestId, ch, built, budget, clock)
    ensures s'.nextChannel == s.nextChannel && s'.phase != AwaitingSetup
    ensures s'.phase == Running ==> ch.channelId in s'.channels && s'.channels[ch.channelId].address == ch.address
    ensures MinersOf(s'.db)
            == MinersOf(s.db) + (if s'.phase == Running && s.recording then [Miner(ch.address, clock)] else [])
  {
    if budget > 0 {
      var s1 := s.(out := s.out + [OpenReply(requestId, ch)], channels := s.channels[ch.channelId := ch]);
      FirstJobRecords(s1, s', ch, built, budget - 1, clock);
    }
  }

  /** The miner of the new channel is recorded exactly if the connection goes on. */
  lemma {:induction false} OpenForRecords(s: Conn, s': Conn, requestId: u32, address: string, target: Option<Hash>,
      built: Option<Job>, budget: nat, clock: int)
    requires s.phase == Running && s' == OpenFor(s, requestId, address, target, built, budget, clock)
    ensures s.nextChannel == U32_MAX ==> s'.phase == Overflowed
    ensures s'.nextChannel == (if s.nextChannel == U32_MAX then s.nextChannel else s.nextChannel + 1)
    ensures s'.phase == Running ==> s.nextChannel in s'.channels && s'.channels[s.nextChannel].address == address
    ensures MinersOf(s'.db)
            == MinersOf(s.db) + (if s'.phase == Running && s.recording then [Miner(address, clock)] else [])
    ensures s'.phase != AwaitingSetup
  {
    if s.nextChannel < U32_MAX && target.Some? {
      var id := s.nextChannel;
      OpenWithRecords(s.(nextChannel := id + 1), s', requestId,
                      Channel(id, ChannelPrefix(id), address, None, target.value), built, budget, clock);
    }
  }

  lemma {:induction false} QuietRecorded(s: Conn, s': Conn)
    requires Recorded(s) && Evolves(s, s') && RecordsNone(s, s')
    ensures Recorded(s')
  {
    var ms := MinersOf(s.db);
    forall i: u32 | i < |ms| ensures i in s'.channels && s'.channels[i].address == ms[i].address {
      assert ChannelEvolves(s, s', i);
    }
  }

  lemma {:induction false} OpeningRecorded(env: Env, s: Conn, s': Conn, e: Event)
    requires Good(Legal(env), s, false) && Recorded(s) && s.phase == Running && e.Arrived? && e.frame.OpenChannel?
    requires s' == Step(env, s, e)
    ensures Recorded(s')
    ensures MinersOf(s'.db)
            == MinersOf(s.db) + (if s'.phase == Running && s.recording
                                 then [Miner(MinerAddress(env, e.frame.user, s.poolAddress), e.clock)] else [])
  {
    var address := MinerAddress(env, e.frame.user, s.poolAddress);
    OpenForRecords(s, s', e.frame.requestId, address, ChannelTarget(env.checked, e.frame.hashrate, s.latest.nbits),
                   BuildJob(env, address, s.nextJob, s.latest), e.budget, e.clock);
    StepEvolves(env, s, s', e);
    NewMinerRecorded(s, s', address, e.clock);
  }

  lemma {:induction false} NewMinerRecorded(s: Conn, s': Conn, address: string, clock: int)
    requires Recorded(s) && s.phase == Running && Evolves(s, s') && s'.phase != AwaitingSetup
    requires s'.nextChannel == if s.nextChannel == U32_MAX then s.nextChannel else s.nextChannel + 1
    requires s.nextChannel == U32_MAX ==> s'.phase == Overflowed
    requires s'.phase == Running ==> s.nextChannel in s'.channels && s'.channels[s.nextChannel].address == address
    requires MinersOf(s'.db)
             == MinersOf(s.db) + (if s'.phase == Running && s.recording then [Miner(address, clock)] else [])
    ensures Recorded(s')
  {
    var ms := MinersOf(s'.db);
    forall i: u32 | i < |ms| ensures i in s'.channels && s'.channels[i].address == ms[i].address {
      if i < |MinersOf(s.db)| {
        assert ChannelEvolves(s, s', i) && ms[i] == MinersOf(s.db)[i];
      }
    }
  }

  lemma {:induction false} ShareRecordsNone(env: Env, s: Conn, share: Submission, budget: nat)
    requires s.phase == Running
    ensures var s' := Submit(env, s, share, budget);
            && MinersOf(s'.db) == MinersOf(s.db) && s'.nextChannel == s.nextChannel
            && (s'.phase == Running || s'.phase == Closed)
  {
    DecisionRecordsNone(s, share, Judge(env, s.channels, share), budget);
  }

  lemma {:induction false} DecisionRecordsNone(s: Conn, share: Submission, v: Verdict, budget: nat)
    requires s.phase == Running
    ensures var s' := Decide(s, share, v, budget);
            && MinersOf(s'.db) == MinersOf(s.db) && s'.nextChannel == s.nextChannel
            && (s'.phase == Running || s'.phase == Closed)
  {
    if v.Accepted? && share.channelId in s.channels {
      var address := s.channels[share.channelId].address;
      OneMoreMiner(s.db, ShareEvent(Share(address, HashToDifficulty(v.hash), v.hash, share.ntime)));
    }
  }

  /** Nothing but an opening records a miner or takes a channel id. */
  predicate RecordsNone(s: Conn, s': Conn) {
    && MinersOf(s'.db) == MinersOf(s.db) && s'.nextChannel == s.nextChannel
    && (s'.phase == AwaitingSetup ==> s.phase == AwaitingSetup)
    && (s'.phase == Running ==> s.phase == Running || s.phase == AwaitingSetup)
  }

  lemma {:induction false} BroadcastRecordsNone(env: Env, s: Conn, s': Conn, order: seq<u32>, budget: nat)
    requires s.phase == Running && IsWalk(order, s.channels) && s' == Broadcast(env, s, order, budget)
    ensures RecordsNone(s, s')
  {
    if s.nextJob < U32_MAX {
      var s1 := s.(unseen := false, nextJob := s.nextJob + 1);
      SendJobsKeepCounters(Jobs(env, s.nextJob, s.latest), s1, order, budget);
      SendJobsAppend(Jobs(env, s.nextJob, s.latest), s1, order, budget);
    }
  }

  lemma {:induction false} SetupRecordsNone(s: Conn, s': Conn, f: Frame, budget: nat)
    requires s.phase == AwaitingSetup && s' == Setup(s, f, budget)
    ensures RecordsNone(s, s')
  {
  }

  lemma {:induction false} StepRecordsNone(env: Env, s: Conn, s': Conn, e: Event)
    requires Enabled(s, e) && !(e.Arrived? && s.phase == Running && e.frame.OpenChannel?) && s' == Step(env, s, e)
    ensures RecordsNone(s, s')
  {
    if e.Changed? {
      BroadcastRecordsNone(env, s, s', e.order, e.budget);
    } else if IsShare(s, e) {
      ShareRecordsNone(env, s, e.frame.share, e.budget);
    } else if e.Arrived? && s.phase == AwaitingSetup {
      SetupRecordsNone(s, s', e.frame, e.budget);
    }
  }

  lemma {:induction false} StepKeepsRecorded(env: Env, s: Conn, s': Conn, e: Event)
    requires Good(Legal(env), s, false) && Recorded(s) && Enabled(s, e) && !e.Notified? && s' == Step(env, s, e)
    ensures Recorded(s')
  {
    if e.Arrived? && s.phase == Running && e.frame.OpenChannel? {
      OpeningRecorded(env, s, s', e);
    } else {
      StepEvolves(env, s, s', e);
      StepRecordsNone(env, s, s', e);
      QuietRecorded(s, s');
    }
  }

  lemma {:induction false} RunKeepsRecorded(env: Env, s: System, es: seq<SysEvent>)
    requires SystemGood(env, s, false) && SysAllowed(env, s, es) && Recorded(s.conn)
    ensures Recorded(SysRun(env, s, es).conn)
    decreases es
  {
    if es != [] {
      var s' := SysStep(env, s, es[0]);
      if es[0].Other? {
        StepKeepsRecorded(env, s.conn, s'.conn, es[0].event);
      }
      SystemStepKeepsGood(env, s, es[0], false);
      RunKeepsRecorded(env, s', es[1..]);
    }
  }

  /** In every run a live recording connection has exactly the channels 0, 1, ... up to the
      next id, and the miners it recorded are their addresses, in this order; one that has
      ended recorded at most those. */
  lemma {:induction false} MinersAreRecorded(env: Env, s: System, es: seq<SysEvent>, c: u32)
    requires Initial(s) && SysAllowed(env, s, es)
    ensures var s' := SysRun(env, s, es).conn;
            var ms := MinersOf(s'.db);
            && (c < |ms| ==> c in s'.channels && s'.channels[c].address == ms[c].address)
            && (c in s'.channels ==> c < s'.nextChannel)
            && (s'.phase == Running && s'.recording ==>
                |ms| == s'.nextChannel && (c in s'.channels <==> c < s'.nextChannel))
            && (!s'.recording ==> ms == [])
  {
    InitialGood(env, s, false);
    RunKeepsRecorded(env, s, es);
    RunKeepsGood(env, s, es, false);
    assert ChannelGood(Legal(env), SysRun(env, s, es).conn, c, false);
  }
}
