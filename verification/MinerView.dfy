/** What a miner knows of its channel, from the messages it received and nothing else. */
module MinerView {
  import opened Bytes
  import opened BlockHeaders
  import opened Targets
  import opened Transactions
  import opened Merkle
  import opened Coinbase
  import opened Connection
  import opened ConnectionRuns
  import opened ConnectionTheorems
  import opened ShareTheorems

  /** The last message of each kind for one channel. */
  datatype View = View(opening: Option<Message>, job: Option<Message>, prev: Option<Message>)

  function See(v: View, m: Message, c: u32): View {
    if Subject(m) != Some(c) then v
    else if m.OpenSuccess? then v.(opening := Some(m))
    else if m.NewJob? then v.(job := Some(m))
    else if m.NewPrevHash? then v.(prev := Some(m))
    else v
  }

  function ViewOf(out: seq<Message>, c: u32): View {
    if out == [] then View(None, None, None) else See(ViewOf(out[..|out| - 1], c), out[|out| - 1], c)
  }

  lemma {:induction false} SeeOneMore(out: seq<Message>, m: Message, c: u32)
    ensures ViewOf(out + [m], c) == See(ViewOf(out, c), m, c)
  {
    assert (out + [m])[..|out|] == out;
  }

  /** The channel is open and its last job is the activated one. */
  predicate Ready(v: View) {
    && v.opening.Some? && v.opening.value.OpenSuccess?
    && v.job.Some? && v.job.value.NewJob?
    && v.prev.Some? && v.prev.value.NewPrevHash? && v.prev.value.jobId == v.job.value.jobId
  }

  /** Extended channels of the Stratum V2 mining protocol: coinbase prefix, extranonce prefix,
      the miner's own bytes, coinbase suffix. */
  function MinedCoinbase(v: View, own: Bytes): Bytes
    requires Ready(v)
  {
    v.job.value.coinb1 + v.opening.value.prefix + own + v.job.value.coinb2
  }

  /** The header the miner hashes. */
  function MinedHeader(env: Env, v: View, share: Submission, coinbase: Tx): BlockHeader
    requires Ready(v)
  {
    var root := Climb(env, Txid(env, coinbase), v.job.value.merklePath);
    BlockHeader(share.version, v.prev.value.prevHash, root, share.ntime, v.prev.value.nbits, share.nonce)
  }

  // ── The log tells the state ───────────────────────────────────────────────

  predicate ToldOpen(s: Conn, c: u32) {
    var opening := ViewOf(s.out, c).opening;
    c in s.channels ==>
      && opening.Some? && opening.value.OpenSuccess?
      && opening.value == OpenReply(opening.value.requestId, s.channels[c])
  }

  /** The last messages of a channel are exactly its open reply and its current job. */
  predicate Told(s: Conn, c: u32) {
    && ToldOpen(s, c)
    && (c in s.channels && s.channels[c].job.Some? ==>
          && ViewOf(s.out, c).job == Some(JobMessage(c, s.channels[c].job.value))
          && ViewOf(s.out, c).prev == Some(PrevHashMessage(c, s.channels[c].job.value)))
  }

  ghost predicate AllTold(s: Conn) {
    s.phase == Running ==> forall c: u32 :: Told(s, c)
  }

  lemma {:induction false} NothingNew(s: Conn, s': Conn)
    requires AllTold(s) && s.phase == Running && s'.out == s.out && s'.channels == s.channels
    ensures AllTold(s')
  {
    forall c: u32 ensures Told(s', c) {
      assert Told(s, c);
    }
  }

  lemma {:induction false} ReplyTold(s: Conn, s': Conn, m: Message)
    requires AllTold(s) && s.phase == Running && (m.SharesError? || m.SharesSuccess?)
    requires s'.out == s.out + [m] && s'.channels == s.channels
    ensures AllTold(s')
  {
    forall c: u32 ensures Told(s', c) {
      assert Told(s, c);
      SeeOneMore(s.out, m, c);
    }
  }

  lemma {:induction false} GivenView(s: Conn, c: u32, j: Job, d: u32)
    requires c in s.channels
    ensures ViewOf(Given(s, c, j, 2).out, d)
            == if d == c then View(ViewOf(s.out, c).opening, Some(JobMessage(c, j)), Some(PrevHashMessage(c, j)))
              else ViewOf(s.out, d)
  {
    SeeTwoMore(s.out, JobMessage(c, j), PrevHashMessage(c, j), d);
  }

  lemma {:induction false} SeeTwoMore(out: seq<Message>, m1: Message, m2: Message, c: u32)
    ensures ViewOf(out + [m1, m2], c) == See(See(ViewOf(out, c), m1, c), m2, c)
  {
    var one := out + [m1];
    SeeOneMore(out, m1, c);
    SeeOneMore(one, m2, c);
    assert one + [m2] == out + [m1, m2];
  }

  lemma {:induction false} GivenTold(s: Conn, s': Conn, c: u32, j: Job)
    requires c in s.channels && ToldOpen(s, c) && forall d: u32 :: d != c ==> Told(s, d)
    requires s'.out == Given(s, c, j, 2).out && s'.channels == Given(s, c, j, 2).channels
    ensures forall d: u32 :: Told(s', d)
  {
    forall d: u32 ensures Told(s', d) {
      GivenView(s, c, j, d);
      assert d != c ==> Told(s, d);
    }
  }

  lemma {:induction false} RegisterTold(s: Conn, s2: Conn, requestId: u32, ch: Channel)
    requires AllTold(s) && s.phase == Running && ch.channelId !in s.channels
    requires s2.out == s.out + [OpenReply(requestId, ch)] && s2.channels == s.channels[ch.channelId := ch]
    ensures ToldOpen(s2, ch.channelId) && forall d: u32 :: d != ch.channelId ==> Told(s2, d)
  {
    forall d: u32 ensures if d == ch.channelId then ToldOpen(s2, d) else Told(s2, d) {
      assert Told(s, d);
      SeeOneMore(s.out, OpenReply(requestId, ch), d);
    }
  }

  lemma {:induction false} OpenTold(s: Conn, s': Conn, requestId: u32, address: string, target: Option<Hash>,
      built: Option<Job>, budget: nat, clock: int)
    requires AllTold(s) && s.phase == Running && s.nextChannel !in s.channels
    requires s' == OpenFor(s, requestId, address, target, built, budget, clock)
    ensures AllTold(s')
  {
    if s'.phase == Running {
      var ch := Channel(s.nextChannel, ChannelPrefix(s.nextChannel), address, None, target.value);
      var s2 := s.(nextChannel := s.nextChannel + 1, out := s.out + [OpenReply(requestId, ch)],
                   channels := s.channels[ch.channelId := ch]);
      RegisterTold(s, s2, requestId, ch);
      FirstJobTold(s2, s', ch, built, budget - 1, clock);
    }
  }

  lemma {:induction false} FirstJobTold(s: Conn, s': Conn, ch: Channel, built: Option<Job>, budget: nat, clock: int)
    requires s.phase == Running && ch.channelId in s.channels && s.channels[ch.channelId] == ch
    requires ToldOpen(s, ch.channelId) && forall d: u32 :: d != ch.channelId ==> Told(s, d)
    requires s' == FirstJob(s, ch, built, budget, clock) && s'.phase == Running
    ensures forall d: u32 :: Told(s', d)
  {
    FirstJobGives(s, ch, built.value, budget, clock);
    var s1 := s.(nextJob := s.nextJob + 1);
    forall d: u32 ensures if d == ch.channelId then ToldOpen(s1, d) else Told(s1, d) {
      assert d != ch.channelId ==> Told(s, d);
    }
    GivenTold(s1, s', ch.channelId, built.value);
  }

  lemma {:induction false} SendJobsTold(build: Builder, s: Conn, s': Conn, order: seq<u32>, budget: nat)
    requires AllTold(s) && s.phase == Running && budget >= 2 * |order|
    requires forall c :: c in order ==> c in s.channels
    requires s' == SendJobs(build, s, order, budget)
    ensures AllTold(s')
    decreases order
  {
    if order != [] {
      var built := build(s.channels[order[0]].address);
      var s1 := SendOne(s, order[0], built, budget).conn;
      SendOneTold(s, s1, order[0], built, budget);
      if SendOne(s, order[0], built, budget).all {
        SendJobsTold(build, s1, s', order[1..], budget - 2);
      }
    }
  }

  lemma {:induction false} SendOneTold(s: Conn, s': Conn, c: u32, built: Option<Job>, budget: nat)
    requires AllTold(s) && s.phase == Running && c in s.channels && budget >= 2
    requires s' == SendOne(s, c, built, budget).conn
    ensures AllTold(s') && s'.phase == Running && s'.channels.Keys == s.channels.Keys
  {
    SendOneGives(s, c, built, budget);
    if built.Some? {
      assert Told(s, c);
      GivenTold(s, s', c, built.value);
    }
  }

  lemma {:induction false} BroadcastTold(env: Env, s: Conn, s': Conn, order: seq<u32>, budget: nat)
    requires AllTold(s) && s.phase == Running && IsWalk(order, s.channels) && budget >= 2 * |order|
    requires s' == Broadcast(env, s, order, budget)
    ensures AllTold(s')
  {
    if s.nextJob < U32_MAX {
      var s1 := s.(unseen := false, nextJob := s.nextJob + 1);
      NothingNew(s, s1);
      SendJobsTold(Jobs(env, s.nextJob, s.latest), s1, s', order, budget);
    }
  }

  lemma {:induction false} DispatchTold(env: Env, s: Conn, s': Conn, f: Frame, budget: nat, clock: int)
    requires AllTold(s) && s.phase == Running && s.nextChannel !in s.channels
    requires s' == Dispatch(env, s, f, budget, clock)
    ensures AllTold(s')
  {
    match f {
      case OpenChannel(requestId, user, hashrate) =>
        var address := MinerAddress(env, user, s.poolAddress);
        OpenTold(s, s', requestId, address, ChannelTarget(env.checked, hashrate, s.latest.nbits),
                 BuildJob(env, address, s.nextJob, s.latest), budget, clock);
      case SubmitShares(share) =>
        var v := Judge(env, s.channels, share);
        DecideShape(s, share, v, budget);
        if s'.out == s.out { NothingNew(s, s'); } else { ReplyTold(s, s', DecideReply(share, v)); }
      case _ => NothingNew(s, s');
    }
  }

  lemma {:induction false} StepTold(env: Env, s: Conn, s': Conn, e: Event)
    requires Good(Legal(env), s, false) && AllTold(s) && Enabled(s, e) && !e.Notified? && Smooth(e)
    requires s' == Step(env, s, e)
    ensures AllTold(s')
  {
    if e.Changed? {
      BroadcastTold(env, s, s', e.order, e.budget);
    } else if e.Arrived? && s.phase == Running {
      assert ChannelGood(Legal(env), s, s.nextChannel, false);
      DispatchTold(env, s, s', e.frame, e.budget, e.clock);
    } else if s'.phase == Running {
      assert s'.channels == map[];
    }
  }

  lemma {:induction false} RunTold(env: Env, s: System, es: seq<SysEvent>)
    requires SystemGood(env, s, false) && SysAllowed(env, s, es) && AllTold(s.conn)
    requires forall e :: e in es ==> SmoothEvent(e)
    ensures AllTold(SysRun(env, s, es).conn)
    decreases es
  {
    if es != [] {
      assert es[0] in es;
      var s' := SysStep(env, s, es[0]);
      if es[0].Other? {
        StepTold(env, s.conn, s'.conn, es[0].event);
      } else if s.conn.phase == Running {
        NothingNew(s.conn, s'.conn);
      }
      SystemStepKeepsGood(env, s, es[0], false);
      RunTold(env, s', es[1..]);
    }
  }

  // ── Miner and pool agree ──────────────────────────────────────────────────

  /** The verdict on a full-length share of the job in view, in terms of the view alone;
      `h` is the block hash in the byte order of the wire. */
  ghost predicate Agreed(env: Env, v: View, share: Submission, verdict: Verdict) {
    && Ready(v) && Deserialize(MinedCoinbase(v, share.extranonce)).Some?
    && var header := MinedHeader(env, v, share, Deserialize(MinedCoinbase(v, share.extranonce)).value);
       exists h: Hash :: HashesTo(env, header, Reverse(h))
         && verdict == if FromLittleEndian(h) > FromLittleEndian(v.opening.value.target) then TooLow
                  else Accepted(Reverse(h), FromLittleEndian(h) <= CompactValue(v.prev.value.nbits))
  }

  /** What the view has of the channel and its job. */
  predicate Shows(v: View, ch: Channel, j: Job) {
    && Ready(v) && v.opening.value.target == Reverse(ch.target)
    && v.job.value.merklePath == j.merklePath && v.prev.value.prevHash == j.prevHash && v.prev.value.nbits == j.nbits
  }

  lemma {:induction false} ToldShows(env: Env, s: Conn, share: Submission, ch: Channel, j: Job, v: View)
    requires Good(Legal(env), s, false) && Names(s, share, ch, j) && Told(s, share.channelId)
    requires |share.extranonce| == EXTRANONCE2 && v == ViewOf(s.out, share.channelId)
    ensures Shows(v, ch, j) && MinedCoinbase(v, share.extranonce) == ShareCoinbase(ch, j, share)
  {
    assert ChannelGood(Legal(env), s, share.channelId, false);
    var own := share.extranonce;
    assert FullExtranonce(ch.prefix, own) == ch.prefix + own by {
      assert own[..EXTRANONCE2] == own;
    }
    Associative(j.parts.coinb1, ch.prefix, own);
  }

  lemma {:induction false} ShownAgrees(env: Env, v: View, share: Submission, ch: Channel, j: Job, tx: Tx)
    requires Shows(v, ch, j) && MinedCoinbase(v, share.extranonce) == ShareCoinbase(ch, j, share)
    requires Deserialize(ShareCoinbase(ch, j, share)) == Some(tx)
    ensures Agreed(env, v, share, Grade(ShareHash(env, j, share, tx), ch.target, j.nbits))
  {
    var hash := ShareHash(env, j, share, tx);
    HashOfHeader(env, MinedHeader(env, v, share, tx), hash);
    var h: Hash := Reverse(hash);
    ReverseInvolutive(hash);
    ReverseValue(h);
    ReverseValue(Reverse(ch.target));
    ReverseInvolutive(ch.target);
  }

  lemma {:induction false} ToldAgrees(env: Env, s: Conn, share: Submission, ch: Channel, j: Job)
    requires Good(Legal(env), s, false) && Names(s, share, ch, j) && Told(s, share.channelId)
    requires |share.extranonce| == EXTRANONCE2
    ensures Agreed(env, ViewOf(s.out, share.channelId), share, Judge(env, s.channels, share))
  {
    var v := ViewOf(s.out, share.channelId);
    var tx := NeverUndecodable(env, s, share, ch, j);
    ToldShows(env, s, share, ch, j, v);
    ShownAgrees(env, v, share, ch, j, tx);
  }

  /** In every run without a failed broadcast, a miner that believes the messages it was
      sent predicts the pool: a share of the last job with an extranonce of the announced
      size is judged by the miner's own header hash against the announced target, both
      read little-endian, and a share of any other job is stale. */
  lemma {:induction false} MinerAndPoolAgree(env: Env, s: System, es: seq<SysEvent>, share: Submission)
    requires Initial(s) && SysAllowed(env, s, es) && forall e :: e in es ==> SmoothEvent(e)
    requires var s' := SysRun(env, s, es).conn; s'.phase == Running && share.channelId in s'.channels
    ensures var s' := SysRun(env, s, es).conn;
            var v := ViewOf(s'.out, share.channelId);
            && Ready(v)
            && (share.jobId != v.job.value.jobId ==> Judge(env, s'.channels, share) == Stale)
            && (share.jobId == v.job.value.jobId && |share.extranonce| == v.opening.value.extranonceSize
                ==> Agreed(env, v, share, Judge(env, s'.channels, share)))
  {
    InitialGood(env, s, false);
    RunTold(env, s, es);
    RunKeepsGood(env, s, es, false);
    PairedJobs(env, s, es, share.channelId);
    var s' := SysRun(env, s, es).conn;
    InitialGood(env, s, true);
    RunKeepsGood(env, s, es, true);
    assert ChannelGood(Legal(env), s', share.channelId, true) && Told(s', share.channelId);
    var ch := s'.channels[share.channelId];
    if ch.job.value.jobId == share.jobId && |share.extranonce| == EXTRANONCE2 {
      ToldAgrees(env, s', share, ch, ch.job.value);
    }
  }
}
